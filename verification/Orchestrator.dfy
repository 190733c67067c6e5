/** Service and cluster control (backend/orchestrator/index.js). Commands are shell scripts:
    whether one is refused, fails or succeeds is left open, and exit code 0 is trusted. */
module Orchestrator {
  import opened Graph
  import opened DependencyOrder
  import opened Options
  import opened ServiceState

  datatype Action = Start | Stop | Restart

  /** Every running service has its direct dependencies running. */
  ghost predicate DependencyClosed(g: Graph, running: set<string>) {
    forall s, d {:trigger Edge(g, s, d)} :: s in running && Edge(g, s, d) ==> d in running
  }

  /** In the list, whatever depends on an entry is listed before it. */
  ghost predicate DependentsEarlier(g: Graph, stops: seq<string>) {
    forall i, s {:trigger Edge(g, s, stops[i])} ::
      0 <= i < |stops| && Edge(g, s, stops[i]) && s != stops[i] ==> s in stops[..i]
  }

  /** The running set once the first `n` services of the list are stopped. */
  function AfterStops(running: set<string>, stops: seq<string>, n: nat): set<string>
    requires n <= |stops|
  {
    running - (set s | s in stops[..n])
  }

  lemma StopKeepsClosed(g: Graph, stops: seq<string>, i: nat, running: set<string>)
    requires i < |stops| && DependentsEarlier(g, stops)
    requires DependencyClosed(g, running) && forall s :: s in stops[..i] ==> s !in running
    ensures DependencyClosed(g, running - {stops[i]})
  {
  }

  /** A stop list is safe from every closed running set exactly when it lists dependents earlier. */
  lemma SafeStopLists(g: Graph, stops: seq<string>)
    ensures DependentsEarlier(g, stops) <==>
      forall running, n :: DependencyClosed(g, running) && 0 <= n <= |stops| ==>
        DependencyClosed(g, AfterStops(running, stops, n))
  {
    if DependentsEarlier(g, stops) {
      forall running, n | DependencyClosed(g, running) && 0 <= n <= |stops|
        ensures DependencyClosed(g, AfterStops(running, stops, n))
      {
        SafePrefix(g, stops, running, n);
      }
    } else {
      var i, s :| 0 <= i < |stops| && Edge(g, s, stops[i]) && s != stops[i] && s !in stops[..i];
      var everything := Names(g);
      NamesClosed(g);
      assert stops[..i + 1][i] == stops[i];
      assert s !in stops[..i + 1];
      var left := AfterStops(everything, stops, i + 1);
      assert s in left && stops[i] !in left;
      assert !DependencyClosed(g, left);
    }
  }

  lemma {:induction false} SafePrefix(g: Graph, stops: seq<string>, running: set<string>, n: nat)
    requires DependentsEarlier(g, stops) && DependencyClosed(g, running) && n <= |stops|
    ensures DependencyClosed(g, AfterStops(running, stops, n))
  {
    if n > 0 {
      SafePrefix(g, stops, running, n - 1);
      var before := AfterStops(running, stops, n - 1);
      StopKeepsClosed(g, stops, n - 1, before);
      assert stops[..n] == stops[..n - 1] + [stops[n - 1]];
      assert AfterStops(running, stops, n) == before - {stops[n - 1]};
    }
  }

  /** All names the graph mentions. */
  function Names(g: Graph): set<string> {
    g.Keys + set k, d | k in g && d in g[k] :: d
  }

  lemma NamesClosed(g: Graph)
    ensures DependencyClosed(g, Names(g))
    ensures forall s, d :: Edge(g, s, d) ==> s in Names(g)
  {
  }

  /** Services of a cluster go down in reverse of their listed order, cluster by cluster. */
  function StopSequence(members: map<string, seq<string>>, order: seq<string>): seq<string> {
    if order == [] then []
    else StopSequence(members, order[..|order| - 1]) + Reversed(Members(members, Last(order)))
  }

  function Members(members: map<string, seq<string>>, cluster: string): seq<string> {
    if cluster in members then members[cluster] else []
  }

  /** Wherever a service is listed, each of its dependents is listed later in the same cluster
      or in another cluster that depends, directly or not, on this one. */
  ghost predicate Layered(services: Graph, clusters: Graph, members: map<string, seq<string>>) {
    forall s, d, c, j |
      Edge(services, s, d) && s != d && 0 <= j < |Members(members, c)| && Members(members, c)[j] == d
      :: ListedAbove(clusters, members, s, c, j)
  }

  ghost predicate ListedAbove(clusters: Graph, members: map<string, seq<string>>, s: string, c: string, j: nat) {
    || (exists k :: j < k < |Members(members, c)| && Members(members, c)[k] == s)
    || (exists upper :: upper != c && Reach(clusters, upper, c) && s in Members(members, upper))
  }

  lemma {:induction false} StopSequenceHas(members: map<string, seq<string>>, order: seq<string>, c: string, s: string)
    requires c in order && s in Members(members, c)
    ensures s in StopSequence(members, order)
  {
    var n := |order| - 1;
    var tail := Reversed(Members(members, Last(order)));
    if c == Last(order) {
      var k :| 0 <= k < |Members(members, c)| && Members(members, c)[k] == s;
      assert tail[|tail| - 1 - k] == s;
    } else {
      StopSequenceHas(members, order[..n], c, s);
    }
  }

  /** On acyclic graphs a stop order has even the indirect dependents first. */
  lemma {:induction false} IndirectDependentsFirst(g: Graph, order: seq<string>, p: seq<string>, i: nat)
    requires DependentsFirst(g, order) && i < |order|
    requires |p| > 1 && WalkBetween(g, p, p[0], order[i])
    ensures p[0] in order[..i]
    decreases |p|
  {
    assert Edge(g, p[0], p[1]);
    if |p| > 2 {
      WalkSuffix(g, p, 1);
      IndirectDependentsFirst(g, order, p[1..], i);
      var k :| 0 <= k < i && order[k] == p[1];
      assert p[0] in order[..k];
    }
  }

  lemma DependentsFirstPrefix(g: Graph, order: seq<string>, n: nat)
    requires DependentsFirst(g, order) && n <= |order|
    ensures DependentsFirst(g, order[..n])
  {
    var front := order[..n];
    forall i, a | 0 <= i < |front| && Edge(g, a, front[i])
      ensures a in front[..i]
    {
      assert front[i] == order[i] && front[..i] == order[..i];
    }
  }

  /** `stopCluster` never looks at the service graph; layering alone makes its list safe. */
  lemma {:induction false} LayeredStopsSafely(
      services: Graph, clusters: Graph, members: map<string, seq<string>>, order: seq<string>)
    requires Layered(services, clusters, members) && DependentsFirst(clusters, order)
    ensures DependentsEarlier(services, StopSequence(members, order))
    decreases |order|
  {
    if order != [] {
      var n := |order| - 1;
      var front := order[..n];
      DependentsFirstPrefix(clusters, order, n);
      LayeredStopsSafely(services, clusters, members, front);
      var head := StopSequence(members, front);
      var tail := Reversed(Members(members, order[n]));
      var all := head + tail;
      forall i, s | 0 <= i < |all| && Edge(services, s, all[i]) && s != all[i]
        ensures s in all[..i]
      {
        if i < |head| {
          assert all[..i] == head[..i];
        } else {
          LayeredTail(services, clusters, members, order, i - |head|, s);
          assert all[..i] == head + tail[..i - |head|];
        }
      }
    }
  }

  lemma LayeredTail(services: Graph, clusters: Graph, members: map<string, seq<string>>,
      order: seq<string>, t: nat, s: string)
    requires Layered(services, clusters, members) && DependentsFirst(clusters, order) && order != []
    requires t < |Members(members, Last(order))|
    requires var d := Reversed(Members(members, Last(order)))[t]; Edge(services, s, d) && s != d
    ensures s in StopSequence(members, order[..|order| - 1])
         || s in Reversed(Members(members, Last(order)))[..t]
  {
    var n := |order| - 1;
    var c := order[n];
    var list := Members(members, c);
    var j := |list| - 1 - t;
    assert list[j] == Reversed(list)[t];
    assert ListedAbove(clusters, members, s, c, j);
    if k :| j < k < |list| && list[k] == s {
      assert Reversed(list)[|list| - 1 - k] == s;
    } else {
      var upper :| upper != c && Reach(clusters, upper, c) && s in Members(members, upper);
      var p :| WalkBetween(clusters, p, upper, c);
      IndirectDependentsFirst(clusters, order, p, n);
      StopSequenceHas(members, order[..n], upper, s);
    }
  }

  /** No cycle leads to `name`. */
  ghost predicate AcyclicInto(g: Graph, name: string) {
    forall p :: Lasso(g, p) ==> !Reach(g, Last(p), name)
  }

  /** Whoever needs a service that stopping `name` stops is stopped before it. */
  ghost predicate StopsCover(services: Graph, stopping: Graph, name: string) {
    forall s, d {:trigger Edge(services, s, d)} ::
      Reach(stopping, d, name) && Edge(services, s, d) && s != d ==> Reach(stopping, s, d)
  }

  /** `order` is a stop order in the graph that stops are read from. */
  lemma CoveredStopsSafely(services: Graph, stopping: Graph, name: string, order: seq<string>)
    requires StopsCover(services, stopping, name) && AcyclicInto(stopping, name)
    requires IsStopOrder(stopping, name, order)
    ensures DependentsEarlier(services, order)
  {
    assert DependentsFirst(stopping, order);
    forall i, s | 0 <= i < |order| && Edge(services, s, order[i]) && s != order[i]
      ensures s in order[..i]
    {
      assert order[i] in order;
      assert Reach(stopping, order[i], name);
      var p :| WalkBetween(stopping, p, s, order[i]);
      IndirectDependentsFirst(stopping, order, p, i);
    }
  }

  lemma CoverBelow(services: Graph, stopping: Graph, name: string, d: string)
    requires StopsCover(services, stopping, name) && AcyclicInto(stopping, name) && Reach(stopping, d, name)
    ensures StopsCover(services, stopping, d) && AcyclicInto(stopping, d)
  {
    forall x | Reach(stopping, x, d)
      ensures Reach(stopping, x, name)
    {
      ReachTransitive(stopping, x, d, name);
    }
  }

  /** Stopping a service that no cycle leads to, or any of its dependents, is safe from every closed
      running set exactly if the graph that stops are read from covers the one that starts are read
      from. */
  lemma StopsSafeExactly(services: Graph, stopping: Graph, name: string, orders: map<string, seq<string>>)
    requires AcyclicInto(stopping, name)
    requires forall d {:trigger Reach(stopping, d, name)} :: Reach(stopping, d, name) ==>
      d in orders && IsStopOrder(stopping, d, orders[d])
    ensures (forall d {:trigger Reach(stopping, d, name)} :: Reach(stopping, d, name) ==>
               DependentsEarlier(services, orders[d]))
      <==> StopsCover(services, stopping, name)
  {
    if StopsCover(services, stopping, name) {
      forall d {:trigger Reach(stopping, d, name)} | Reach(stopping, d, name)
        ensures DependentsEarlier(services, orders[d])
      {
        CoverBelow(services, stopping, name, d);
        CoveredStopsSafely(services, stopping, d, orders[d]);
      }
    }
    forall s, d | Reach(stopping, d, name) && DependentsEarlier(services, orders[d])
      && Edge(services, s, d) && s != d
      ensures Reach(stopping, s, d)
    {
      var order := orders[d];
      assert IsStopOrder(stopping, d, order);
      assert order[|order| - 1] == d;
      assert s in order[..|order| - 1];
    }
  }

  /** A service that the stop graph knows no dependencies of is left running. */
  lemma DependentLeft(services: Graph, stopping: Graph, s: string, d: string, order: seq<string>, running: set<string>)
    requires Edge(services, s, d) && Succ(stopping, s) == [] && s != d
    requires IsStopOrder(stopping, d, order) && s in running
    ensures !Reach(stopping, s, d) && s !in order && d !in AfterStops(running, order, |order|)
    ensures !DependencyClosed(services, AfterStops(running, order, |order|))
    ensures !StopsCover(services, stopping, d)
  {
    ReachSelf(stopping, d);
    if Reach(stopping, s, d) {
      ReachInside(stopping, s, d, {s});
    }
    assert order[|order| - 1] == d && order[..|order|] == order;
    var left := AfterStops(running, order, |order|);
    assert s in left && d !in left;
  }

  /** An empty `dependsOn` hides the dependencies of a service from every stop: stopping what it
      depends on leaves it running. */
  lemma EmptyDependsOnHides(defs: Definitions, s: string, d: string, order: seq<string>, running: set<string>)
    requires s in defs.entries && s != d && defs.entries[s].dependsOn == Some([])
    requires d in ServiceEdges(defs.entries[s])
    requires IsStopOrder(ClusterGraph(defs), d, order) && s in running
    ensures s !in order && d !in AfterStops(running, order, |order|)
    ensures !DependencyClosed(ServiceGraph(defs), AfterStops(running, order, |order|))
    ensures !StopsCover(ServiceGraph(defs), ClusterGraph(defs), d)
  {
    EdgesRead(defs, s);
    DependentLeft(ServiceGraph(defs), ClusterGraph(defs), s, d, order, running);
  }

  /** `Completed` means the call returned, `Aborted` that it threw part-way. */
  datatype Outcome = Completed | Aborted

  datatype Entry = Checked(name: string, up: bool) | Asked(name: string, action: Action)

  /** What a health sweep reports of one service. */
  datatype SweepResult = SweepResult(service: string, healthy: bool, repaired: bool)

  /** Restarting under running dependents is the one thing that opens a gap. */
  lemma RestartGap(g: Graph, up: set<string>, name: string)
    requires DependencyClosed(g, up)
    ensures DependencyClosed(g, up - {name}) <==> forall s :: s in up && Edge(g, s, name) ==> s == name
  {
  }

  /** What the descriptor registry hands out: definitions, cluster members, restart budgets. */
  datatype RegistryData = RegistryData(
    services: Definitions,
    clusters: Definitions,
    members: map<string, seq<string>>,
    maxRestarts: map<string, nat>)
  {
    /** The names are normalized. */
    ghost predicate Valid() {
      && services.Valid() && clusters.Valid()
      && (forall k {:trigger Normalize(k)} :: k in services.entries || k in clusters.entries ==> Normalize(k) == k)
    }

    function Budget(name: string): nat {
      if name in maxRestarts then maxRestarts[name] else 3
    }
  }

  const NO_DEFINITIONS := Definitions([], map[])

  type Registry = r: RegistryData | r.Valid()
    ghost witness RegistryData(NO_DEFINITIONS, NO_DEFINITIONS, map[], map[])

  /** The definitions as the orders read them. */
  datatype GraphData = GraphData(
    services: Graph, stopping: Graph, serviceKeys: seq<string>, clusters: Graph, clusterKeys: seq<string>)
  {
    ghost predicate Valid() {
      && stopping.Keys == services.Keys && NoDuplicates(serviceKeys)
      && (forall k :: k in serviceKeys <==> k in services)
      && (forall k :: k in clusterKeys <==> k in clusters)
      && (forall k {:trigger Normalize(k)} :: k in services || k in clusters ==> Normalize(k) == k)
    }
  }

  type Graphs = g: GraphData | g.Valid()
    ghost witness GraphData(map[], map[], [], map[], [])

  lemma GraphsValid(services: Definitions, clusters: Definitions, starts: Graph, stops: Graph, above: Graph)
    requires RegistryData(services, clusters, map[], map[]).Valid()
    requires starts.Keys == stops.Keys == services.entries.Keys && above.Keys == clusters.entries.Keys
    ensures GraphData(starts, stops, services.keys, above, clusters.keys).Valid()
  {
    KeysEnumerate(services);
    KeysEnumerate(clusters);
  }

  lemma KeysEnumerate(defs: Definitions)
    requires defs.Valid()
    ensures forall k :: k in defs.keys <==> k in defs.entries
  {
    forall k
      ensures k in defs.keys <==> k in defs.entries
    {
      assert k in defs.keys <==> k in (set k | k in defs.keys);
    }
  }

  function GraphsOf(r: Registry): Graphs {
    var starts, stops, above := ServiceGraph(r.services), ClusterGraph(r.services), ClusterGraph(r.clusters);
    GraphsValid(r.services, r.clusters, starts, stops, above);
    GraphData(starts, stops, r.services.keys, above, r.clusters.keys)
  }

  ghost function RepairsIn(repairs: map<string, nat>, name: string): nat {
    if name in repairs then repairs[name] else 0
  }

  class Orchestrator {
    const registry: Registry
    const graphs: Graphs
    /** What a service needs, by which starts are ordered. */
    const services: Graph := graphs.services
    /** By which stops are ordered. */
    const stopping: Graph := graphs.stopping
    const clusters: Graph := graphs.clusters
    const members: map<string, seq<string>> := registry.members
    const state: StateEngine
    /** The services that are up right now. */
    var running: set<string>
    /** Whether after every half-step of every command so far `running` was dependency-closed. */
    ghost var unbroken: bool
    /** Stop commands that exited with 0, in order. */
    ghost var stops: seq<string>
    /** Every status check with its answer, and every command asked for, in order. */
    ghost var trace: seq<Entry>
    /** Automatic restarts that completed, per service. */
    ghost var repairs: map<string, nat>

    /** Now and at every moment so far, running services had their dependencies running. */
    ghost predicate Safe()
      reads this
    {
      DependencyClosed(services, running) && unbroken
    }

    /** Completed automatic restarts are covered by the stored count and by the budget. */
    ghost predicate WithinBudget()
      reads this, state
    {
      forall n {:trigger RepairsIn(repairs, n)} ::
        RepairsIn(repairs, n) <= CountIn(state.records, n) && RepairsIn(repairs, n) <= registry.Budget(n)
    }

    constructor (registry: Registry)
      ensures this.registry == registry
      ensures services == ServiceGraph(registry.services) && stopping == ClusterGraph(registry.services)
      ensures clusters == ClusterGraph(registry.clusters) && members == registry.members
      ensures fresh(state) && state.records == map[]
      ensures Safe() && WithinBudget() && running == {} && stops == [] && trace == [] && repairs == map[]
    {
      this.registry, this.graphs := registry, GraphsOf(registry);
      this.state := new StateEngine();
      this.running, this.unbroken, this.stops, this.trace, this.repairs := {}, true, [], [], map[];
    }

    /** One script. A failing script may or may not have had its effect. */
    method RunCommand(name: string, action: Action) returns (outcome: Outcome)
      modifies this`running, this`unbroken, this`stops
      ensures action != Restart ==> unbroken == (old(unbroken) && DependencyClosed(services, running))
      ensures action == Restart && DependencyClosed(services, old(running) - {name}) && old(Safe()) ==>
        unbroken == DependencyClosed(services, running)
      ensures action == Restart ==> old(running) - {name} <= running <= old(running) + {name}
      ensures outcome.Completed? ==> running == if action == Stop then old(running) - {name} else old(running) + {name}
      ensures action == Start ==> old(running) <= running <= old(running) + {name}
      ensures action == Stop ==> old(running) - {name} <= running <= old(running)
      ensures stops == old(stops) + if action == Stop && outcome.Completed? then [name] else []
    {
      var success: bool, took: bool := *, *;
      outcome := if success then Completed else Aborted;
      var effective := success || took;
      match action {
        case Start =>
          if effective { running := running + {name}; }
        case Stop =>
          if effective { running := running - {name}; }
          if success { stops := stops + [name]; }
        case Restart =>
          var down: bool := *;
          if down { running := running - {name}; }
          unbroken := unbroken && DependencyClosed(services, running);
          if effective { running := running + {name}; }
      }
      unbroken := unbroken && DependencyClosed(services, running);
    }

    /** A status check never takes a stopped service for a running one. */
    method GetServiceStatus(name: string, now: int) returns (up: bool)
      modifies state, this`trace
      ensures up ==> name in running
      ensures trace == old(trace) + [Checked(name, up)]
      ensures var r := state.Get(name);
        && state.records == old(state.records)[name := r]
        && r.running == up && r.status == (if up then "running" else "stopped")
        && r.desired == old(state.Get(name)).desired
      ensures CountRaised(old(state.records), state.records, name, 0)
    {
      var answer: bool := *;
      up := name in running && answer;
      trace := trace + [Checked(name, up)];
      if up {
        state.UpdateService(name, NO_PATCH.(running := Some(true), status := Some("running")), now);
      } else {
        state.UpdateService(name, NO_PATCH.(running := Some(false), status := Some("stopped")), now);
      }
    }

    method ControlSingleService(name: string, action: Action, now: int) returns (outcome: Outcome)
      modifies this`running, this`unbroken, this`stops, this`trace, state
      ensures outcome.Completed? ==> running == if action == Stop then old(running) - {name} else old(running) + {name}
      ensures action == Start ==> old(running) <= running <= old(running) + {name}
      ensures action == Stop ==> old(running) - {name} <= running <= old(running)
      ensures action == Restart ==> old(running) - {name} <= running <= old(running) + {name}
      ensures old(Safe()) && (action == Restart ==> DependencyClosed(services, old(running) - {name})) ==>
        unbroken == DependencyClosed(services, running)
      ensures stops == old(stops) + if action == Stop && outcome.Completed? then [name] else []
      ensures trace == old(trace) + [Asked(name, action)] +
        if outcome.Completed? then [Checked(name, state.Get(name).running)] else []
      ensures outcome.Completed? ==> name in services && var r := state.Get(name);
        && r.desired == (match action case Stop => WantStopped case Start => WantRunning case Restart => WantRunning)
        && r.status == (if r.running then "running" else "stopped") && (r.running ==> name in running)
      ensures state.records ==
        if outcome.Completed? then old(state.records)[name := state.Get(name)] else old(state.records)
      ensures CountRaised(old(state.records), state.records, name,
        if action == Restart && outcome.Completed? then 1 else 0)
    {
      trace := trace + [Asked(name, action)];
      if name !in services {
        return Aborted;
      }
      var blocked: bool := *;
      if action != Stop && blocked {
        return Aborted;  // power guard
      }
      outcome := RunCommand(name, action);
      if outcome.Aborted? {
        return;
      }
      var up := GetServiceStatus(name, now);
      ghost var checked := state.records;
      assert CountIn(checked, name) == CountIn(old(state.records), name);
      state.UpdateService(name, Patch(
        Some(if action == Stop then WantStopped else WantRunning),
        action == Restart,
        Some(up),
        Some(if up then "running" else "stopped"),
        None), now);
      assert forall n :: n != name ==> CountIn(state.records, n) == CountIn(checked, n);
    }

    /** The start order in the form the loop needs; nothing in it depends on the target. */
    method StartPlan(name: string) returns (known: bool, order: seq<string>)
      requires name in services
      ensures known ==> order != [] && Last(order) == name && Topological(services, order)
      ensures known ==> forall s {:trigger Reach(services, name, s)} :: Reach(services, name, s) <==> s in order
      ensures known ==> forall s {:trigger Edge(services, s, name)} :: s in order ==> !Edge(services, s, name)
    {
      var resolved := ResolveDependencyOrder(services, name, true);
      if resolved.Err? {
        return false, [];
      }
      order := resolved.value;
      forall s | s in order
        ensures !Edge(services, s, name)
      {
      }
      return true, order;
    }

    /** A dependency is started only if a check has just found it down. */
    method StartIfDown(name: string, now: int) returns (outcome: Outcome)
      modifies this`running, this`unbroken, this`stops, this`trace, state
      ensures old(Safe()) ==> unbroken == DependencyClosed(services, running)
      ensures old(running) <= running <= old(running) + {name}
      ensures outcome.Completed? ==> name in running
      ensures stops == old(stops) && CountsKept(old(state.records), state.records)
      ensures trace == old(trace) + [Checked(name, true)]
        || old(trace) + [Checked(name, false), Asked(name, Start)] <= trace
    {
      var up := GetServiceStatus(name, now);
      outcome := Completed;
      if !up {
        outcome := ControlSingleService(name, Start, now);
      }
    }

    method StartWithDependencies(name: string, action: Action, now: int) returns (outcome: Outcome)
      requires name in services && action != Stop
      modifies this`running, this`unbroken, this`stops, this`trace, state
      ensures old(trace) <= trace
      ensures action == Start && old(Safe()) ==> Safe()
      ensures action == Restart && old(Safe()) && NoDependentRunning(name, old(running)) ==> Safe()
      ensures old(running) - {name} <= running
      ensures action == Start ==> old(running) <= running
      ensures forall s {:trigger Reach(services, name, s)} ::
        s in running && s !in old(running) ==> Reach(services, name, s)
      ensures outcome.Completed? ==>
        forall s {:trigger Reach(services, name, s)} :: Reach(services, name, s) ==> s in running
      ensures outcome.Completed? ==> state.Get(name).desired == WantRunning
      ensures stops == old(stops)
      ensures CountRaised(old(state.records), state.records, name,
        if action == Restart && outcome.Completed? then 1 else 0)
    {
      var known, order := StartPlan(name);
      if !known {
        return Aborted;
      }
      var i := 0;
      while i < |order| - 1
        invariant 0 <= i <= |order| - 1
        invariant old(running) <= running
        invariant forall s :: s in running && s !in old(running) ==> s in order
        invariant forall s :: s in order[..i] ==> s in running
        invariant old(Safe()) ==> Safe()
        invariant old(trace) <= trace
        invariant stops == old(stops)
        invariant CountRaised(old(state.records), state.records, name, 0)
      {
        outcome := StartIfDown(order[i], now);
        if outcome.Aborted? {
          return;
        }
        assert order[..i + 1] == order[..i] + [order[i]];
        i := i + 1;
      }
      assert order == order[..i] + [name];
      outcome := ControlSingleService(name, action, now);
    }

    /** The stop order of `name` has no cycles and covers what services need. */
    ghost predicate StopsSafely(name: string) {
      AcyclicInto(stopping, name) && StopsCover(services, stopping, name)
    }

    method StopPlan(name: string) returns (order: seq<string>)
      requires name in services
      ensures forall s {:trigger Reach(stopping, s, name)} :: Reach(stopping, s, name) <==> s in order
      ensures StopsSafely(name) ==> DependentsEarlier(services, order)
    {
      var resolved := ResolveDependentOrder(stopping, graphs.serviceKeys, name, true);
      order := resolved.value;
      if StopsSafely(name) {
        CoveredStopsSafely(services, stopping, name, order);
      }
    }

    method StopWithDependents(name: string, now: int) returns (outcome: Outcome)
      requires name in services
      modifies this`running, this`unbroken, this`stops, this`trace, state
      ensures old(trace) <= trace
      ensures old(Safe()) && StopsSafely(name) ==> Safe()
      ensures running <= old(running)
      ensures forall s {:trigger Reach(stopping, s, name)} ::
        s in old(running) && s !in running ==> Reach(stopping, s, name)
      ensures outcome.Completed? ==>
        forall s {:trigger Reach(stopping, s, name)} :: Reach(stopping, s, name) ==>
          s !in running && state.Get(s).desired == WantStopped
      ensures CountRaised(old(state.records), state.records, name, 0)
    {
      var order := StopPlan(name);
      var i := 0;
      while i < |order|
        invariant 0 <= i <= |order|
        invariant old(trace) <= trace
        invariant running <= old(running)
        invariant forall s :: s in old(running) && s !in running ==> s in order
        invariant forall s :: s in order[..i] ==> s !in running && state.Get(s).desired == WantStopped
        invariant old(Safe()) && StopsSafely(name) ==> Safe()
        invariant CountRaised(old(state.records), state.records, name, 0)
      {
        outcome := StopNext(order[i], now, order, i);
        if outcome.Aborted? {
          return;
        }
        assert order[..i + 1] == order[..i] + [order[i]];
        i := i + 1;
      }
      outcome := Completed;
    }

    /** A start brings dependencies up first; a stop takes dependents down first. Whatever
        happens on the way, no recorded moment breaks the dependency order. */
    method ControlService(name: string, action: Action, now: int) returns (outcome: Outcome)
      modifies this`running, this`unbroken, this`stops, this`trace, state
      ensures old(trace) <= trace
      ensures action == Start && old(Safe()) ==> Safe()
      ensures action == Start ==> old(running) <= running
      ensures action == Start ==>
        forall s {:trigger Reach(services, name, s)} :: s in running && s !in old(running) ==> Reach(services, name, s)
      ensures action != Stop && outcome.Completed? ==>
        forall s {:trigger Reach(services, name, s)} :: Reach(services, name, s) ==> s in running
      ensures action == Stop && old(Safe()) && StopsSafely(name) ==> Safe()
      ensures action == Stop ==> running <= old(running)
      ensures action == Stop ==>
        forall s {:trigger Reach(stopping, s, name)} :: s in old(running) && s !in running ==> Reach(stopping, s, name)
      ensures action == Stop && outcome.Completed? ==>
        forall s {:trigger Reach(stopping, s, name)} :: Reach(stopping, s, name) ==>
          s !in running && state.Get(s).desired == WantStopped
      ensures action != Stop && outcome.Completed? ==> state.Get(name).desired == WantRunning
      ensures action == Restart && old(Safe()) && NoDependentRunning(name, old(running)) ==> Safe()
      ensures CountRaised(old(state.records), state.records, name,
        if action == Restart && outcome.Completed? then 1 else 0)
      ensures old(WithinBudget()) ==> WithinBudget()
    {
      if name !in services {
        return Aborted;
      }
      if action == Stop {
        outcome := StopWithDependents(name, now);
      } else {
        outcome := StartWithDependencies(name, action, now);
      }
    }

    ghost predicate NoDependentRunning(name: string, up: set<string>) {
      forall s :: s in up && Edge(services, s, name) ==> s == name
    }

    /** Something that the first `n` services of the list, or the one after them, need. */
    ghost predicate NeededBy(list: seq<string>, n: nat, s: string) {
      exists k :: 0 <= k < |list| && k <= n && Reach(services, list[k], s)
    }

    /** The same for the members of clusters. */
    ghost predicate NeededByClusters(order: seq<string>, n: nat, s: string) {
      exists k :: 0 <= k < |order| && k <= n && NeededBy(Members(members, order[k]), |Members(members, order[k])|, s)
    }

    /** Starting a cluster never consults more than one service at a time, and still never
        runs a service ahead of its dependencies. Clusters are taken in a start order: however far the
        run gets, `n` clusters are up, and nothing has been started but what these and the next need. */
    method StartCluster(cluster: string, now: int) returns (outcome: Outcome, ghost order: seq<string>, ghost n: nat)
      modifies this`running, this`unbroken, this`stops, this`trace, state
      ensures old(Safe()) ==> Safe()
      ensures old(running) <= running
      ensures outcome.Completed? ==> forall c, s {:trigger Reach(clusters, cluster, c), s in Members(members, c)} ::
        Reach(clusters, cluster, c) && s in Members(members, c) ==> s in running
      ensures Topological(clusters, order) && NoDuplicates(order) && n <= |order|
      ensures forall c, s {:trigger c in order[..n], s in Members(members, c)} ::
        c in order[..n] && s in Members(members, c) ==> s in running
      ensures forall s :: s in running && s !in old(running) ==> NeededByClusters(order, n, s)
      ensures CountsKept(old(state.records), state.records)
    {
      order, n := [], 0;
      if cluster !in clusters {
        return Aborted, [], 0;
      }
      var known, plan := ClusterStartPlan(cluster);
      if !known {
        return Aborted, [], 0;
      }
      order := plan;
      var i := 0;
      while i < |plan|
        invariant 0 <= i <= |plan| && n == i
        invariant old(Safe()) ==> Safe()
        invariant old(running) <= running
        invariant forall c, s :: c in plan[..i] && s in Members(members, c) ==> s in running
        invariant forall s :: s in running && s !in old(running) ==> NeededByClusters(plan, i, s)
        invariant CountsKept(old(state.records), state.records)
      {
        ghost var was := running;
        ghost var m;
        outcome, m := StartMembers(Members(members, plan[i]), now);
        forall s | s in running && s !in old(running)
          ensures NeededByClusters(plan, i, s)
        {
          assert s !in was ==> NeededBy(Members(members, plan[i]), |Members(members, plan[i])|, s);
        }
        if outcome.Aborted? {
          return;
        }
        assert plan[..i + 1] == plan[..i] + [plan[i]];
        i := i + 1;
        n := i;
      }
      assert plan[..i] == plan;
      outcome := Completed;
    }

    method ClusterStartPlan(cluster: string) returns (known: bool, order: seq<string>)
      requires cluster in clusters
      ensures known ==> forall c {:trigger Reach(clusters, cluster, c)} :: Reach(clusters, cluster, c) <==> c in order
      ensures known ==> Topological(clusters, order) && NoDuplicates(order)
    {
      var resolved := ResolveDependencyOrder(clusters, cluster, true);
      known := resolved.Ok?;
      order := if known then resolved.value else [];
    }

    /** A member is started, with what it needs, only if a check has just found it down. */
    method StartMember(name: string, now: int) returns (outcome: Outcome)
      modifies this`running, this`unbroken, this`stops, this`trace, state
      ensures old(Safe()) ==> Safe()
      ensures old(running) <= running && (outcome.Completed? ==> name in running)
      ensures forall s :: s in running && s !in old(running) ==> Reach(services, name, s)
      ensures trace == old(trace) + [Checked(name, true)] || old(trace) + [Checked(name, false)] <= trace
      ensures CountsKept(old(state.records), state.records)
    {
      var up := GetServiceStatus(name, now);
      outcome := Completed;
      if !up {
        outcome := ControlService(name, Start, now);
        ReachSelf(services, name);
      }
    }

    /** Members are taken in the order listed, and only those that a check finds down. */
    method StartMembers(list: seq<string>, now: int) returns (outcome: Outcome, ghost n: nat)
      modifies this`running, this`unbroken, this`stops, this`trace, state
      ensures old(Safe()) ==> Safe()
      ensures old(running) <= running && n <= |list|
      ensures outcome.Completed? ==> n == |list|
      ensures forall k :: 0 <= k < n ==> list[k] in running
      ensures forall s :: s in running && s !in old(running) ==> NeededBy(list, n, s)
      ensures CountsKept(old(state.records), state.records)
    {
      var j := 0;
      n := 0;
      while j < |list|
        invariant 0 <= j <= |list| && n == j
        invariant old(Safe()) ==> Safe()
        invariant old(running) <= running
        invariant forall k :: 0 <= k < j ==> list[k] in running
        invariant forall s :: s in running && s !in old(running) ==> NeededBy(list, j, s)
        invariant CountsKept(old(state.records), state.records)
      {
        ghost var was := running;
        outcome := StartMember(list[j], now);
        forall s | s in running && s !in old(running)
          ensures NeededBy(list, j, s)
        {
          assert s !in was ==> Reach(services, list[j], s);
        }
        if outcome.Aborted? {
          return;
        }
        j := j + 1;
        n := j;
      }
      outcome := Completed;
    }

    /** One cluster's share of the stop sequence; `head` was stopped before. */
    method StopMembers(list: seq<string>, now: int, ghost head: seq<string>) returns (outcome: Outcome)
      requires forall s :: s in head ==> s !in running
      modifies this`running, this`unbroken, this`stops, this`trace, state
      ensures old(Safe()) && DependentsEarlier(services, head + Reversed(list)) ==> Safe()
      ensures running <= old(running)
      ensures outcome.Completed? ==> stops == old(stops) + Reversed(list)
      ensures outcome.Completed? ==> forall s :: s in head + Reversed(list) ==> s !in running
      ensures CountsKept(old(state.records), state.records)
    {
      var down := Reversed(list);
      ghost var all := head + down;
      var j := 0;
      while j < |down|
        invariant 0 <= j <= |down|
        invariant old(Safe()) && DependentsEarlier(services, all) ==> Safe()
        invariant running <= old(running)
        invariant stops == old(stops) + down[..j]
        invariant forall s :: s in all[..|head| + j] ==> s !in running
        invariant CountsKept(old(state.records), state.records)
      {
        assert all[|head| + j] == down[j];
        outcome := StopNext(down[j], now, all, |head| + j);
        if outcome.Aborted? {
          return;
        }
        assert down[..j + 1] == down[..j] + [down[j]];
        j := j + 1;
      }
      assert down[..j] == down && all[..|all|] == all;
      outcome := Completed;
    }

    /** One stop of the sequence `all`, the services before it being down. */
    method StopNext(name: string, now: int, ghost all: seq<string>, ghost at: nat) returns (outcome: Outcome)
      requires at < |all| && all[at] == name && forall s :: s in all[..at] ==> s !in running
      modifies this`running, this`unbroken, this`stops, this`trace, state
      ensures old(trace) <= trace
      ensures old(Safe()) && DependentsEarlier(services, all) ==> Safe()
      ensures old(running) - {name} <= running <= old(running)
      ensures stops == old(stops) + if outcome.Completed? then [name] else []
      ensures outcome.Completed? ==> forall s :: s in all[..at + 1] ==> s !in running
      ensures outcome.Completed? ==>
        state.records == old(state.records)[name := state.Get(name)] && state.Get(name).desired == WantStopped
      ensures CountsKept(old(state.records), state.records)
    {
      if DependentsEarlier(services, all) && DependencyClosed(services, running) {
        StopKeepsClosed(services, all, at, running);
      }
      outcome := ControlSingleService(name, Stop, now);
      assert running == old(running) || running == old(running) - {name};
      assert all[..at + 1] == all[..at] + [name];
    }

    method StopAll(order: seq<string>, now: int) returns (outcome: Outcome)
      modifies this`running, this`unbroken, this`stops, this`trace, state
      ensures old(Safe()) && DependentsFirst(clusters, order) && Layered(services, clusters, members) ==> Safe()
      ensures running <= old(running)
      ensures outcome.Completed? ==> stops == old(stops) + StopSequence(members, order)
      ensures outcome.Completed? ==> forall s :: s in StopSequence(members, order) ==> s !in running
      ensures CountsKept(old(state.records), state.records)
    {
      ghost var safe := old(Safe()) && DependentsFirst(clusters, order) && Layered(services, clusters, members);
      ghost var head: seq<string> := [];
      var i := 0;
      while i < |order|
        invariant 0 <= i <= |order| && head == StopSequence(members, order[..i])
        invariant safe ==> Safe()
        invariant running <= old(running)
        invariant stops == old(stops) + head
        invariant forall s :: s in head ==> s !in running
        invariant CountsKept(old(state.records), state.records)
      {
        var list := Members(members, order[i]);
        NextMembersSafe(order, i, head);
        outcome := StopMembers(list, now, head);
        if outcome.Aborted? {
          return;
        }
        head := head + Reversed(list);
        i := i + 1;
      }
      assert order[..i] == order;
      outcome := Completed;
    }

    lemma NextMembersSafe(order: seq<string>, i: nat, head: seq<string>)
      requires i < |order| && head == StopSequence(members, order[..i])
      ensures StopSequence(members, order[..i + 1]) == head + Reversed(Members(members, order[i]))
      ensures DependentsFirst(clusters, order) && Layered(services, clusters, members) ==>
        DependentsEarlier(services, head + Reversed(Members(members, order[i])))
    {
      StopSequenceStep(order, i);
      if DependentsFirst(clusters, order) && Layered(services, clusters, members) {
        DependentsFirstPrefix(clusters, order, i + 1);
        LayeredStopsSafely(services, clusters, members, order[..i + 1]);
      }
    }

    lemma StopSequenceStep(order: seq<string>, i: nat)
      requires i < |order|
      ensures StopSequence(members, order[..i + 1]) ==
        StopSequence(members, order[..i]) + Reversed(Members(members, order[i]))
    {
      assert order[..i + 1][..i] == order[..i];
    }

    /** Stops every member of the cluster and of the clusters above it, in one fixed sequence.
        The sequence is safe for layered clusters; `SafeStopLists` says it is not otherwise. */
    method StopCluster(cluster: string, now: int) returns (outcome: Outcome, ghost order: seq<string>)
      modifies this`running, this`unbroken, this`stops, this`trace, state
      ensures old(Safe()) && AcyclicInto(clusters, cluster) && Layered(services, clusters, members) ==> Safe()
      ensures running <= old(running)
      ensures cluster in clusters ==> IsStopOrder(clusters, cluster, order)
      ensures outcome.Completed? ==> stops == old(stops) + StopSequence(members, order)
      ensures outcome.Completed? ==> forall s :: s in StopSequence(members, order) ==> s !in running
      ensures CountsKept(old(state.records), state.records)
    {
      order := [];
      if cluster !in clusters {
        return Aborted, [];
      }
      var resolved := ResolveDependentOrder(clusters, graphs.clusterKeys, cluster, true);
      order := resolved.value;
      outcome := StopAll(resolved.value, now);
    }

    /** Each completed repair since then shows up as one more in the stored count. */
    ghost predicate RepairsCounted(records: map<string, Record>, was: map<string, nat>)
      reads this, state
    {
      forall n {:trigger RepairsIn(repairs, n)} {:trigger CountIn(state.records, n)} ::
        CountIn(state.records, n) - CountIn(records, n) == RepairsIn(repairs, n) - RepairsIn(was, n) >= 0
    }

    /** One turn of a sweep. A restart is asked for exactly if repairs are wanted, the service is not
        healthy, is meant to run and has restarts left; two writers then add to the stored count, yet a
        completed repair raises it by exactly one, and one that throws leaves it alone. */
    method CheckService(name: string, repair: bool, now: int) returns (result: SweepResult)
      modifies this`running, this`unbroken, this`stops, this`trace, this`repairs, state
      ensures old(WithinBudget()) ==> WithinBudget()
      ensures result.service == name
      ensures var was := RecordOf(old(state.records), name);
        var due :=
          && repair && !result.healthy && was.desired == WantRunning
          && was.restartCount < (if name in registry.maxRestarts then registry.maxRestarts[name] else 3);
        && (result.repaired ==> due)
        && trace == old(trace) +
             (if due then [Asked(name, Restart)] else []) +
             (if result.repaired then [Checked(name, state.Get(name).running)] else [])
        && (!due ==> running == old(running) && unbroken == old(unbroken))
        && (!result.repaired ==> state.Get(name).desired == was.desired)
      ensures result.repaired ==> running == old(running) + {name} && state.Get(name).desired == WantRunning
      ensures old(running) - {name} <= running <= old(running) + {name} && stops == old(stops)
      ensures repairs ==
        if result.repaired then old(repairs)[name := RepairsIn(old(repairs), name) + 1] else old(repairs)
      ensures CountRaised(old(state.records), state.records, name, if result.repaired then 1 else 0)
      ensures state.records == old(state.records)[name := state.Get(name)]
    {
      var healthy: bool := *;
      state.UpdateService(name, NO_PATCH, now);
      var stored := state.Get(name);
      assert CountRaised(old(state.records), state.records, name, 0);
      ghost var checked := state.records;
      var repaired := false;
      if repair && !healthy && stored.desired == WantRunning && stored.restartCount < registry.Budget(name) {
        repaired := Repair(name, stored.restartCount, now);
      }
      if repaired {
        repairs := repairs[name := RepairsIn(repairs, name) + 1];
      }
      assert forall n {:trigger RepairsIn(repairs, n)} ::
        n != name ==> RepairsIn(repairs, n) == RepairsIn(old(repairs), n);
      assert forall n {:trigger CountIn(state.records, n)} ::
        CountIn(old(state.records), n) == CountIn(checked, n) <= CountIn(state.records, n);
      result := SweepResult(name, healthy, repaired);
    }

    /** A restart, and the write of the count that was read before it plus one. */
    method Repair(name: string, read: nat, now: int) returns (repaired: bool)
      requires read == CountIn(state.records, name)
      modifies this`running, this`unbroken, this`stops, this`trace, state
      ensures trace == old(trace) + [Asked(name, Restart)] +
        if repaired then [Checked(name, state.Get(name).running)] else []
      ensures repaired ==> running == old(running) + {name} && state.Get(name).desired == WantRunning
      ensures state.records == if repaired then old(state.records)[name := state.Get(name)] else old(state.records)
      ensures old(running) - {name} <= running <= old(running) + {name} && stops == old(stops)
      ensures CountRaised(old(state.records), state.records, name, if repaired then 1 else 0)
    {
      var outcome := ControlSingleService(name, Restart, now);
      repaired := outcome.Completed?;
      if repaired {
        ghost var restarted := state.records;
        state.UpdateService(name, NO_PATCH.(restartCount := Some(read + 1)), now);
        assert forall n :: n != name ==> CountIn(state.records, n) == CountIn(restarted, n);
      }
    }

    ghost function Now(): View
      reads this, state
    {
      View(state.records, running, repairs, trace)
    }

    /** The same, as one turn of a sweep. */
    method SweepService(name: string, repair: bool, now: int) returns (result: SweepResult)
      modifies this`running, this`unbroken, this`stops, this`trace, this`repairs, state
      ensures old(WithinBudget()) ==> WithinBudget()
      ensures RepairsCounted(old(state.records), old(repairs))
      ensures result.service == name && Turn(registry, old(Now()), Now(), result, repair)
      ensures old(trace) <= trace && stops == old(stops)
    {
      ghost var before := Now();
      result := CheckService(name, repair, now);
      TurnTaken(registry, before, Now(), result, repair);
    }

    /** Every service has its turn, once; nothing but restarts is asked for. */
    method HealthSweep(repair: bool, now: int) returns (results: seq<SweepResult>)
      modifies this`running, this`unbroken, this`stops, this`trace, this`repairs, state
      ensures old(WithinBudget()) ==> WithinBudget()
      ensures RepairsCounted(old(state.records), old(repairs))
      ensures |results| == |graphs.serviceKeys|
      ensures forall k :: 0 <= k < |results| ==>
        results[k].service == graphs.serviceKeys[k] && Swept(registry, old(Now()), Now(), results[k], repair)
      ensures forall n :: n !in services ==> Unswept(old(Now()), Now(), n)
      ensures stops == old(stops)
    {
      results := [];
      var i := 0;
      while i < |graphs.serviceKeys|
        invariant 0 <= i <= |graphs.serviceKeys| && |results| == i
        invariant old(WithinBudget()) ==> WithinBudget()
        invariant RepairsCounted(old(state.records), old(repairs))
        invariant forall k :: 0 <= k < i ==>
          results[k].service == graphs.serviceKeys[k] && Swept(registry, old(Now()), Now(), results[k], repair)
        invariant forall n :: n !in graphs.serviceKeys[..i] ==> Unswept(old(Now()), Now(), n)
        invariant old(trace) <= trace && stops == old(stops)
      {
        ghost var before := Now();
        var result := SweepService(graphs.serviceKeys[i], repair, now);
        results := results + [result];
        SweptNext(registry, old(Now()), before, Now(), result, repair);
        i := i + 1;
      }
    }
  }

  /** What a sweep works on. */
  datatype View = View(
    records: map<string, Record>, running: set<string>, repairs: map<string, nat>, trace: seq<Entry>)

  /** Nothing has been done to a service. */
  ghost predicate Unswept(before: View, after: View, name: string) {
    && RecordOf(after.records, name) == RecordOf(before.records, name)
    && (name in after.running <==> name in before.running)
    && RepairsIn(after.repairs, name) == RepairsIn(before.repairs, name)
    && before.trace <= after.trace && Asked(name, Restart) !in after.trace[|before.trace|..]
  }

  /** A service that has had its turn: restarted exactly if it was due when the sweep began. */
  ghost predicate Swept(registry: Registry, before: View, after: View, result: SweepResult, repair: bool) {
    var name := result.service;
    var was, now := RecordOf(before.records, name), RecordOf(after.records, name);
    var due :=
      && repair && !result.healthy && was.desired == WantRunning
      && was.restartCount < (if name in registry.maxRestarts then registry.maxRestarts[name] else 3);
    && before.trace <= after.trace && (Asked(name, Restart) in after.trace[|before.trace|..] <==> due)
    && (result.repaired ==> due && name in after.running)
    && (!due ==> (name in after.running <==> name in before.running))
    && now.desired == was.desired
    && now.restartCount == was.restartCount + (if result.repaired then 1 else 0)
    && RepairsIn(after.repairs, name) == RepairsIn(before.repairs, name) + (if result.repaired then 1 else 0)
  }

  /** One turn of a sweep. */
  ghost predicate Turn(registry: Registry, before: View, after: View, result: SweepResult, repair: bool) {
    && Swept(registry, before, after, result, repair)
    && forall n :: n != result.service ==> Unswept(before, after, n)
  }

  lemma SuffixGrows<T>(first: seq<T>, middle: seq<T>, last: seq<T>, e: T)
    requires first <= middle <= last
    ensures first <= last
    ensures e in last[|first|..] <==> e in middle[|first|..] || e in last[|middle|..]
  {
    assert last == middle + last[|middle|..];
    assert last[|first|..] == middle[|first|..] + last[|middle|..];
  }

  lemma TurnTaken(registry: Registry, before: View, after: View, result: SweepResult, repair: bool)
    requires var name := result.service;
      var was, now := RecordOf(before.records, name), RecordOf(after.records, name);
      var due :=
        && repair && !result.healthy && was.desired == WantRunning
        && was.restartCount < (if name in registry.maxRestarts then registry.maxRestarts[name] else 3);
      && (result.repaired ==> due && name in after.running && now.desired == WantRunning)
      && after.trace == before.trace +
           (if due then [Asked(name, Restart)] else []) +
           (if result.repaired then [Checked(name, now.running)] else [])
      && (!due ==> after.running == before.running)
      && (!result.repaired ==> now.desired == was.desired)
      && before.running - {name} <= after.running <= before.running + {name}
      && after.repairs ==
           (if result.repaired then before.repairs[name := RepairsIn(before.repairs, name) + 1] else before.repairs)
      && CountRaised(before.records, after.records, name, if result.repaired then 1 else 0)
      && after.records == before.records[name := now]
    ensures Turn(registry, before, after, result, repair)
  {
    var name := result.service;
    assert CountIn(after.records, name) == CountIn(before.records, name) + (if result.repaired then 1 else 0);
    assert forall e :: e in after.trace[|before.trace|..] ==> e == Asked(name, Restart) || e.Checked?;
    assert after.trace != before.trace ==> after.trace[|before.trace|] == Asked(name, Restart);
  }

  lemma SweptNext(registry: Registry, first: View, before: View, after: View, result: SweepResult, repair: bool)
    requires Turn(registry, before, after, result, repair) && first.trace <= before.trace
    ensures Unswept(first, before, result.service) ==> Swept(registry, first, after, result, repair)
    ensures forall n :: n != result.service && Unswept(first, before, n) ==> Unswept(first, after, n)
    ensures forall r: SweepResult :: r.service != result.service && Swept(registry, first, before, r, repair) ==>
      Swept(registry, first, after, r, repair)
  {
    SuffixGrows(first.trace, before.trace, after.trace, Asked(result.service, Restart));
    forall n | n != result.service && Unswept(first, before, n)
      ensures Unswept(first, after, n)
    {
      SuffixGrows(first.trace, before.trace, after.trace, Asked(n, Restart));
      assert Unswept(before, after, n);
    }
    forall r: SweepResult | r.service != result.service && Swept(registry, first, before, r, repair)
      ensures Swept(registry, first, after, r, repair)
    {
      SuffixGrows(first.trace, before.trace, after.trace, Asked(r.service, Restart));
      assert Unswept(before, after, r.service);
    }
  }
}
