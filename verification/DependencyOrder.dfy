/** Depth-first start and stop orders (backend/orchestrator/graph.js). */
module DependencyOrder {
  import opened Graph
  import opened Options
  import JsText

  /** `trim().toLowerCase()`. */
  function Normalize(value: string): string {
    JsText.ToLower(JsText.Trim(value))
  }

  datatype Definition = Definition(dependsOn: Option<seq<string>>, dependencies: Option<seq<string>>)

  /** The definitions object: its own keys in enumeration order. */
  datatype Definitions = Definitions(keys: seq<string>, entries: map<string, Definition>) {
    predicate Valid() {
      NoDuplicates(keys) && (set k | k in keys) == entries.Keys
    }
  }

  /** `deps.map(normalize).filter(Boolean)`. */
  function NormalizeAll(names: seq<string>): (r: seq<string>)
    ensures forall d :: d in r <==> d != "" && exists n :: n in names && Normalize(n) == d
  {
    if names == [] then []
    else
      var rest := NormalizeAll(names[1..]);
      assert forall n :: n in names <==> n == names[0] || n in names[1..];
      if Normalize(names[0]) == "" then rest else [Normalize(names[0])] + rest
  }

  /** `dependsOn || dependencies || []`: an empty `dependsOn` still wins. */
  function ClusterEdges(d: Definition): seq<string> {
    NormalizeAll(if d.dependsOn.Some? then d.dependsOn.value
                 else if d.dependencies.Some? then d.dependencies.value else [])
  }

  /** `dependencies || []`. */
  function ServiceEdges(d: Definition): seq<string> {
    NormalizeAll(if d.dependencies.Some? then d.dependencies.value else [])
  }

  function ClusterGraph(defs: Definitions): (g: Graph)
    ensures g.Keys == defs.entries.Keys
  {
    map name | name in defs.entries :: ClusterEdges(defs.entries[name])
  }

  function ServiceGraph(defs: Definitions): (g: Graph)
    ensures g.Keys == defs.entries.Keys
  {
    map name | name in defs.entries :: ServiceEdges(defs.entries[name])
  }

  lemma EdgesRead(defs: Definitions, name: string)
    requires name in defs.entries
    ensures Succ(ClusterGraph(defs), name) == ClusterEdges(defs.entries[name])
    ensures Succ(ServiceGraph(defs), name) == ServiceEdges(defs.entries[name])
  {
  }

  datatype ResolveError =
    | UnknownTarget(target: string)
    | UnknownDependency(dependency: string, referrer: string)
    | DependencyCycle(path: seq<string>)

  datatype Result<T> = Ok(value: T) | Err(error: ResolveError)

  /** The list without `key` when `includeSelf` is off. */
  function Omit(s: seq<string>, includeSelf: bool, key: string): (r: seq<string>)
    ensures forall x :: x in r <==> x in s && (includeSelf || x != key)
    ensures includeSelf ==> r == s
    ensures NoDuplicates(s) ==> NoDuplicates(r)
  {
    if includeSelf || s == [] then s
    else
      var rest := Omit(s[1..], includeSelf, key);
      assert s == [s[0]] + s[1..];
      assert NoDuplicates(s) ==> NoDuplicates(s[1..]) && s[0] !in s[1..];
      if s[0] == key then rest else [s[0]] + rest
  }

  lemma {:induction false} OmitAppend(s: seq<string>, x: string, includeSelf: bool, key: string)
    ensures Omit(s + [x], includeSelf, key) ==
            Omit(s, includeSelf, key) + (if includeSelf || x != key then [x] else [])
  {
    if s != [] && !includeSelf {
      assert (s + [x])[1..] == s[1..] + [x];
      OmitAppend(s[1..], x, includeSelf, key);
    }
  }

  /** What a start order must be: the reachable names once each, dependencies first. */
  ghost predicate IsStartOrder(g: Graph, key: string, order: seq<string>) {
    && NoDuplicates(order)
    && (forall x {:trigger Reach(g, key, x)} :: x in order <==> Reach(g, key, x))
    && Topological(g, order)
    && order != [] && Last(order) == key
  }

  /** An error is honest when it names a defect that is really there. */
  ghost predicate Justified(g: Graph, key: string, e: ResolveError) {
    match e
    case UnknownTarget(_) => key !in g
    case UnknownDependency(d, b) => b in g && Reach(g, key, b) && Edge(g, b, d) && d !in g
    case DependencyCycle(path) => Lasso(g, path) && path[0] == key
  }

  lemma JustifiedRefutes(g: Graph, key: string, e: ResolveError)
    requires Justified(g, key, e)
    ensures !(AcyclicFrom(g, key) && ClosedFrom(g, key))
  {
    match e
    case UnknownTarget(_) =>
      ReachSelf(g, key);
    case UnknownDependency(d, b) =>
      ReachStep(g, key, b, d);
    case DependencyCycle(path) =>
  }

  lemma StartOrderSound(g: Graph, key: string, order: seq<string>)
    requires IsStartOrder(g, key, order)
    requires forall x :: x in order ==> x in g
    ensures AcyclicFrom(g, key) && ClosedFrom(g, key)
  {
    assert key in order;
    TopologicalSound(g, order, key);
  }

  /** The names finished so far: reachable, listed once, dependencies first. */
  ghost predicate Finished(g: Graph, key: string, finished: seq<string>) {
    && NoDuplicates(finished)
    && Topological(g, finished)
    && (forall x :: x in finished ==> x in g && Reach(g, key, x))
  }

  lemma FinishedAppend(g: Graph, key: string, finished: seq<string>, name: string)
    requires Finished(g, key, finished) && name !in finished
    requires name in g && Reach(g, key, name)
    requires forall d :: d in Succ(g, name) ==> d in finished
    ensures Finished(g, key, finished + [name])
  {
    var order := finished + [name];
    forall i, d | 0 <= i < |order| && Edge(g, order[i], d)
      ensures d in order[..i]
    {
      if i < |finished| {
        assert order[i] == finished[i] && order[..i] == finished[..i];
      } else {
        assert order[..i] == finished;
      }
    }
  }

  lemma StackShowsReach(g: Graph, path: seq<string>, key: string, name: string)
    requires WalkBetween(g, path, key, name)
    ensures Reach(g, key, name)
  {
  }

  lemma StackShowsCycle(g: Graph, stack: seq<string>, key: string, name: string)
    requires WalkBetween(g, stack + [name], key, name) && name in stack
    ensures Justified(g, key, DependencyCycle(stack + [name]))
  {
  }

  /** The closure variables of `resolveDependencyOrder`. */
  class DependencyVisitor {
    const graph: Graph
    const key: string
    const includeSelf: bool
    var visiting: set<string>
    var visited: set<string>
    var ordered: seq<string>
    ghost var finished: seq<string>

    ghost predicate Valid()
      reads this
    {
      && ordered == Omit(finished, includeSelf, key)
      && visited == (set x | x in finished)
      && visiting <= graph.Keys
      && visiting !! visited
      && Finished(graph, key, finished)
    }

    constructor (graph: Graph, key: string, includeSelf: bool)
      ensures this.graph == graph && this.key == key && this.includeSelf == includeSelf
      ensures Valid() && finished == [] && visiting == {}
    {
      this.graph := graph;
      this.key := key;
      this.includeSelf := includeSelf;
      this.visiting := {};
      this.visited := {};
      this.ordered := [];
      this.finished := [];
    }

    /** `stack` holds the names being visited, outermost first. */
    method Visit(name: string, stack: seq<string>) returns (failure: Option<ResolveError>)
      requires Valid()
      requires name in graph
      requires visiting == (set x | x in stack)
      requires WalkBetween(graph, stack + [name], key, name)
      modifies this
      ensures failure.Some? ==> Justified(graph, key, failure.value)
      ensures failure.None? ==> Valid() && visiting == old(visiting)
      ensures failure.None? ==> old(visited) <= visited && name in visited
      ensures failure.None? && name !in old(visited) ==> finished != [] && Last(finished) == name
      decreases graph.Keys - visiting
    {
      var path := stack + [name];
      if name in visiting {
        StackShowsCycle(graph, stack, key, name);
        return Some(DependencyCycle(path));
      }
      if name in visited {
        return None;
      }
      StackShowsReach(graph, path, key, name);
      visiting := visiting + {name};
      label entered:
      var deps := Succ(graph, name);
      var i := 0;
      while i < |deps|
        invariant 0 <= i <= |deps|
        invariant Valid() && visiting == old@entered(visiting)
        invariant old(visited) <= visited
        invariant forall j :: 0 <= j < i ==> deps[j] in visited
      {
        var dep := deps[i];
        assert Edge(graph, name, dep);
        if dep !in graph {
          return Some(UnknownDependency(dep, name));
        }
        WalkExtend(graph, path, dep);
        failure := Visit(dep, path);
        if failure.Some? {
          return;
        }
        i := i + 1;
      }
      Leave(name);
      failure := None;
    }

    method Leave(name: string)
      requires Valid() && name in visiting && name in graph && Reach(graph, key, name)
      requires forall d :: d in Succ(graph, name) ==> d in visited
      modifies this
      ensures Valid()
      ensures visiting == old(visiting) - {name} && visited == old(visited) + {name}
      ensures finished == old(finished) + [name]
    {
      visiting := visiting - {name};
      visited := visited + {name};
      if includeSelf || name != key {
        ordered := ordered + [name];
      }
      OmitAppend(finished, name, includeSelf, key);
      FinishedAppend(graph, key, finished, name);
      finished := finished + [name];
    }
  }

  /** Succeeds exactly when what the target reaches is defined and free of cycles. */
  method ResolveDependencyOrder(g: Graph, target: string, includeSelf: bool) returns (r: Result<seq<string>>)
    ensures r.Ok? <==> AcyclicFrom(g, Normalize(target)) && ClosedFrom(g, Normalize(target))
    ensures r.Ok? ==> exists order ::
      IsStartOrder(g, Normalize(target), order) && r.value == Omit(order, includeSelf, Normalize(target))
    ensures r.Ok? && includeSelf ==> IsStartOrder(g, Normalize(target), r.value)
    ensures r.Err? ==> Justified(g, Normalize(target), r.error)
    ensures r == Err(UnknownTarget(target)) <==> Normalize(target) !in g
  {
    var key := Normalize(target);
    if key !in g {
      JustifiedRefutes(g, key, UnknownTarget(target));
      return Err(UnknownTarget(target));
    }
    var visitor := new DependencyVisitor(g, key, includeSelf);
    assert [] + [key] == [key];
    var failure := visitor.Visit(key, []);
    if failure.Some? {
      JustifiedRefutes(g, key, failure.value);
      return Err(failure.value);
    }
    ghost var order := visitor.finished;
    TopologicalSound(g, order, key);
    assert IsStartOrder(g, key, order);
    StartOrderSound(g, key, order);
    return Ok(visitor.ordered);
  }

  /** The text of the thrown error, which `detectCycle` searches. */
  function ErrorMessage(e: ResolveError): string {
    match e
    case UnknownTarget(t) => "Unknown target '" + t + "'"
    case UnknownDependency(d, b) => "Unknown dependency '" + d + "' referenced by '" + b + "'"
    case DependencyCycle(path) => "Dependency cycle detected: " + JsText.Join(path, " -> ")
  }

  predicate SaysCycle(e: ResolveError) {
    JsText.Includes(ErrorMessage(e), "cycle")
  }

  /** A name in quotes holds the word, or the quoted text around it would have to. */
  lemma OccursBetweenQuotes(before: string, name: string, after: string, i: nat)
    requires i <= |before + ['\''] + name + ['\''] + after|
    requires JsText.OccursAt(before + ['\''] + name + ['\''] + after, "cycle", i)
    ensures
      || (i + 5 <= |before| && JsText.OccursAt(before, "cycle", i))
      || (|before| < i && i + 5 <= |before| + 1 + |name| && JsText.OccursAt(name, "cycle", i - |before| - 1))
      || (|before| + 1 + |name| < i && JsText.OccursAt(after, "cycle", i - |before| - |name| - 2))
  {
    var s := before + ['\''] + name + ['\''] + after;
    assert s[i..][..5] == "cycle";
    forall m | i <= m < i + 5
      ensures s[m] != '\''
    {
      assert s[m] == s[i..][..5][m - i];
    }
    var q := |before|;
    var q' := |before| + 1 + |name|;
    assert s[q] == '\'' && s[q'] == '\'';
    if i + 5 <= q {
      assert before[i..][..5] == "cycle";
    } else if i + 5 <= q' {
      assert name[i - q - 1..][..5] == "cycle";
    } else {
      assert after[i - q' - 1..][..5] == "cycle";
    }
  }

  lemma IncludesEmbedded(before: string, name: string, after: string)
    requires JsText.Includes(name, "cycle")
    ensures JsText.Includes(before + name + after, "cycle")
  {
    var i :| 0 <= i <= |name| && JsText.OccursAt(name, "cycle", i);
    var s := before + name + after;
    assert name[i..][..5] == "cycle";
    assert s[|before| + i..][..5] == "cycle";
    assert JsText.OccursAt(s, "cycle", |before| + i);
  }

  lemma NoCycleWord(text: string)
    requires 'l' !in text
    ensures !JsText.Includes(text, "cycle")
  {
    assert "cycle"[3] == 'l';
  }

  lemma UnknownTargetSaysCycle(t: string)
    ensures SaysCycle(UnknownTarget(t)) <==> JsText.Includes(t, "cycle")
  {
    var message := ErrorMessage(UnknownTarget(t));
    assert message == "Unknown target " + ['\''] + t + ['\''] + "";
    if JsText.Includes(t, "cycle") {
      IncludesEmbedded("Unknown target '", t, "'");
    }
    if i :| 0 <= i <= |message| && JsText.OccursAt(message, "cycle", i) {
      OccursBetweenQuotes("Unknown target ", t, "", i);
      NoCycleWord("Unknown target ");
    }
  }

  lemma UnknownDependencySaysCycle(d: string, b: string)
    ensures SaysCycle(UnknownDependency(d, b)) <==> JsText.Includes(d, "cycle") || JsText.Includes(b, "cycle")
  {
    var head := "Unknown dependency ";
    var middle := " referenced by ";
    var message := ErrorMessage(UnknownDependency(d, b));
    assert message == head + ['\''] + d + ['\''] + (middle + ['\''] + b + ['\''] + "");
    NoCycleWord(head);
    NoCycleWord(middle);
    TwoQuotedNames(head, d, middle, b);
  }

  lemma TwoQuotedNames(head: string, d: string, middle: string, b: string)
    requires !JsText.Includes(head, "cycle") && !JsText.Includes(middle, "cycle")
    ensures var message := head + ['\''] + d + ['\''] + (middle + ['\''] + b + ['\''] + "");
      JsText.Includes(message, "cycle") <==> JsText.Includes(d, "cycle") || JsText.Includes(b, "cycle")
  {
    var tail := middle + ['\''] + b + ['\''] + "";
    var message := head + ['\''] + d + ['\''] + tail;
    if JsText.Includes(d, "cycle") {
      IncludesEmbedded(head + ['\''], d, ['\''] + tail);
      assert message == head + ['\''] + d + (['\''] + tail);
    } else if JsText.Includes(b, "cycle") {
      var before := head + ['\''] + d + ['\''] + middle + ['\''];
      IncludesEmbedded(before, b, ['\'']);
      assert message == before + b + ['\''];
    }
    if i :| 0 <= i <= |message| && JsText.OccursAt(message, "cycle", i) {
      OccursBetweenQuotes(head, d, tail, i);
      var k := i - |head| - |d| - 2;
      if 0 <= k <= |tail| && JsText.OccursAt(tail, "cycle", k) {
        OccursBetweenQuotes(middle, b, "", k);
      }
    }
  }

  /** Exactly which errors `detectCycle` takes for cycles: every cycle error, and any
      unknown-name error whose names happen to contain the word. */
  lemma SaysCycleExactly(e: ResolveError)
    ensures SaysCycle(e) <==>
      match e
      case DependencyCycle(_) => true
      case UnknownTarget(t) => JsText.Includes(t, "cycle")
      case UnknownDependency(d, b) => JsText.Includes(d, "cycle") || JsText.Includes(b, "cycle")
  {
    match e
    case DependencyCycle(path) =>
      assert ErrorMessage(e)[11..][..5] == "cycle";
      assert JsText.OccursAt(ErrorMessage(e), "cycle", 11);
    case UnknownTarget(t) => UnknownTargetSaysCycle(t);
    case UnknownDependency(d, b) => UnknownDependencySaysCycle(d, b);
  }

  datatype CycleReport = NoCycle | Reported(error: ResolveError) | Thrown(error: ResolveError)

  ghost predicate KeySound(g: Graph, k: string) {
    AcyclicFrom(g, Normalize(k)) && ClosedFrom(g, Normalize(k))
  }

  /** Silence means every key resolves; anything else names a real defect of some key. */
  ghost predicate IsCycleReport(g: Graph, keys: seq<string>, report: CycleReport) {
    && (report.NoCycle? <==> forall k :: k in keys ==> KeySound(g, k))
    && (!report.NoCycle? ==> exists k :: k in keys && Justified(g, Normalize(k), report.error))
    && (report.Reported? ==> SaysCycle(report.error))
    && (report.Thrown? ==> !SaysCycle(report.error))
  }

  lemma FaultyKey(g: Graph, keys: seq<string>, i: nat, error: ResolveError)
    requires i < |keys| && !KeySound(g, keys[i]) && Justified(g, Normalize(keys[i]), error)
    ensures SaysCycle(error) ==> IsCycleReport(g, keys, Reported(error))
    ensures !SaysCycle(error) ==> IsCycleReport(g, keys, Thrown(error))
  {
    assert keys[i] in keys;
  }

  method DetectCycle(g: Graph, keys: seq<string>) returns (report: CycleReport)
    ensures IsCycleReport(g, keys, report)
  {
    var i := 0;
    while i < |keys|
      invariant 0 <= i <= |keys|
      invariant forall k :: k in keys[..i] ==> KeySound(g, k)
    {
      var key := keys[i];
      var r := ResolveDependencyOrder(g, key, true);
      assert KeySound(g, key) <==> r.Ok?;
      if r.Err? {
        FaultyKey(g, keys, i, r.error);
        if SaysCycle(r.error) {
          return Reported(r.error);
        }
        return Thrown(r.error);
      }
      i := i + 1;
      assert keys[..i] == keys[..i - 1] + [key];
    }
    assert keys[..|keys|] == keys;
    return NoCycle;
  }

  /** With normalized keys the per-key checks amount to the whole graph being closed and acyclic. */
  lemma AllKeysSound(g: Graph)
    ensures (forall k :: k in g ==> AcyclicFrom(g, k) && ClosedFrom(g, k)) <==> Acyclic(g) && Closed(g)
  {
    if forall k :: k in g ==> AcyclicFrom(g, k) && ClosedFrom(g, k) {
      forall p
        ensures !Lasso(g, p)
      {
        if Walk(g, p) && |p| > 1 {
          assert p[0] in g by { assert Edge(g, p[0], p[1]); }
        }
      }
      forall a, b | a in g && Edge(g, a, b)
        ensures b in g
      {
        ReachSelf(g, a);
        ReachStep(g, a, a, b);
      }
    }
    if Acyclic(g) && Closed(g) {
      forall k, b | k in g && Reach(g, k, b)
        ensures b in g
      {
        ReachInside(g, k, b, g.Keys);
      }
    }
  }

  /** The outcome of `detectCycle` for a graph enumerated by normalized keys. */
  lemma {:induction false} DetectCycleComplete(g: Graph, keys: seq<string>, report: CycleReport)
    requires forall k :: k in keys <==> k in g
    requires forall k :: k in keys ==> Normalize(k) == k
    requires IsCycleReport(g, keys, report)
    ensures report.NoCycle? <==> Acyclic(g) && Closed(g)
    ensures Closed(g) ==> (report.Reported? <==> !Acyclic(g)) && !report.Thrown?
  {
    AllKeysSound(g);
    if Closed(g) && !report.NoCycle? {
      var k :| k in keys && Justified(g, Normalize(k), report.error);
      SaysCycleExactly(report.error);
    }
  }

  /** A missing service called "bicycle" is reported as a dependency cycle. */
  lemma MissingBicycleReported()
    ensures var g: Graph := map["shop" := ["bicycle"]];
      && Acyclic(g)
      && Justified(g, "shop", UnknownDependency("bicycle", "shop"))
      && SaysCycle(UnknownDependency("bicycle", "shop"))
  {
    var g: Graph := map["shop" := ["bicycle"]];
    forall p
      ensures !Lasso(g, p)
    {
      if Walk(g, p) && |p| > 1 {
        assert Edge(g, p[0], p[1]);
        assert p[0] == "shop" && p[1] == "bicycle";
        assert Succ(g, "bicycle") == [];
        assert !Edge(g, p[1], if |p| > 2 then p[2] else "");
      }
    }
    ReachSelf(g, "shop");
    assert JsText.OccursAt("bicycle", "cycle", 2);
    SaysCycleExactly(UnknownDependency("bicycle", "shop"));
  }

  /** What a stop order must be: every transitive dependent once, the target last, and
      dependents before what they depend on exactly when no cycle comes back to them. */
  ghost predicate IsStopOrder(g: Graph, key: string, order: seq<string>) {
    && NoDuplicates(order)
    && (forall x {:trigger Reach(g, x, key)} :: x in order <==> Reach(g, x, key))
    && order != [] && Last(order) == key
    && (DependentsFirst(g, order) <==> forall p :: Lasso(g, p) ==> Last(p) !in order)
  }

  ghost predicate DependentsFirst(g: Graph, order: seq<string>) {
    forall i, a {:trigger Edge(g, a, order[i])} :: 0 <= i < |order| && Edge(g, a, order[i]) ==> a in order[..i]
  }

  lemma StopOrderFromReverse(g: Graph, r: Graph, key: string, order: seq<string>)
    requires IsReverse(g, r)
    requires NoDuplicates(order) && order != [] && Last(order) == key
    requires forall x :: x in order <==> Reach(r, key, x)
    requires AcyclicFrom(r, key) ==> Topological(r, order)
    ensures IsStopOrder(g, key, order)
  {
    forall x
      ensures x in order <==> Reach(g, x, key)
    {
      ReverseReach(g, r, x, key);
    }
    assert DependentsFirst(g, order) <==> Topological(r, order);
    if Topological(r, order) {
      TopologicalSound(r, order, key);
    }
    ReverseCycles(g, r, key);
  }

  /** In the reversed graph a cycle reachable from `key` is a cycle that leads to `key`. */
  lemma ReverseCycles(g: Graph, r: Graph, key: string)
    requires IsReverse(g, r)
    ensures AcyclicFrom(r, key) <==> forall p :: Lasso(g, p) ==> !Reach(g, Last(p), key)
  {
    if p :| Lasso(g, p) && Reach(g, Last(p), key) {
      var i :| 0 <= i < |p| - 1 && p[i] == Last(p);
      WalkSuffix(g, p, i);
      var loop := p[i..];
      ReverseWalk(g, r, loop);
      ReverseReach(g, r, Last(p), key);
      var q :| WalkBetween(r, q, key, Last(p));
      WalkAppend(r, q, Reversed(loop));
      var s := q + Reversed(loop)[1..];
      assert s[|q| - 1] == Last(p) == Last(s);
      assert s[..|s| - 1][|q| - 1] == Last(s);
      assert Lasso(r, s) && s[0] == key;
    }
    if p :| Lasso(r, p) && p[0] == key {
      var i :| 0 <= i < |p| - 1 && p[i] == Last(p);
      WalkSuffix(r, p, i);
      ReverseWalk(r, g, p[i..]);
      var back := Reversed(p[i..]);
      assert back[..|back| - 1][0] == Last(back);
      assert Lasso(g, back);
      ReverseReach(g, r, Last(p), key);
      assert WalkBetween(r, p, key, Last(p));
    }
  }

  /** `open` is the stack of names entered but not yet listed in `finished`. */
  ghost predicate Explored(r: Graph, key: string, finished: seq<string>, open: seq<string>, visited: set<string>) {
    && visited == (set x | x in finished) + (set x | x in open)
    && (forall x :: x in finished ==> x !in open && Reach(r, key, x))
    && NoDuplicates(finished)
    && (forall x, y :: x in finished && Edge(r, x, y) ==> y in visited)
    && (AcyclicFrom(r, key) ==> Topological(r, finished))
  }

  lemma ExploredEnter(
      r: Graph, key: string, finished: seq<string>, open: seq<string>, visited: set<string>, name: string)
    requires Explored(r, key, finished, open, visited) && name !in visited
    ensures Explored(r, key, finished, open + [name], visited + {name})
  {
  }

  lemma ExploredLeave(
      r: Graph, key: string, finished: seq<string>, open: seq<string>, visited: set<string>, name: string)
    requires Explored(r, key, finished, open + [name], visited) && name !in open
    requires WalkBetween(r, open + [name], key, name)
    requires forall d :: d in Succ(r, name) ==> d in visited
    ensures Explored(r, key, finished + [name], open, visited)
  {
    assert name in open + [name];
    if AcyclicFrom(r, key) {
      SuccessorsFinished(r, key, finished, open + [name], visited, name);
      TopologicalAppend(r, finished, name);
    }
  }

  /** Without cycles a visited successor cannot still be open. */
  lemma SuccessorsFinished(
      r: Graph, key: string, finished: seq<string>, path: seq<string>, visited: set<string>, name: string)
    requires Explored(r, key, finished, path, visited)
    requires WalkBetween(r, path, key, name) && AcyclicFrom(r, key)
    requires forall d :: d in Succ(r, name) ==> d in visited
    ensures forall d :: d in Succ(r, name) ==> d in finished
  {
    forall d | d in Succ(r, name)
      ensures d in finished
    {
      if d in path {
        WalkExtend(r, path, d);
        assert (path + [d])[..|path|] == path;
        assert Lasso(r, path + [d]);
      }
    }
  }

  lemma TopologicalAppend(g: Graph, finished: seq<string>, name: string)
    requires Topological(g, finished)
    requires forall d :: d in Succ(g, name) ==> d in finished
    ensures Topological(g, finished + [name])
  {
    var order := finished + [name];
    forall i, d | 0 <= i < |order| && Edge(g, order[i], d)
      ensures d in order[..i]
    {
      if i < |finished| {
        assert order[i] == finished[i] && order[..i] == finished[..i];
      } else {
        assert order[..i] == finished;
      }
    }
  }

  /** The closure variables of `resolveDependentOrder`; it carries no cycle check. */
  class DependentVisitor {
    const reverse: Graph
    const key: string
    const includeSelf: bool
    var visited: set<string>
    var ordered: seq<string>
    ghost var finished: seq<string>

    ghost predicate Valid(open: seq<string>)
      reads this
    {
      ordered == Omit(finished, includeSelf, key) && Explored(reverse, key, finished, open, visited)
    }

    constructor (reverse: Graph, key: string, includeSelf: bool)
      ensures this.reverse == reverse && this.key == key && this.includeSelf == includeSelf
      ensures Valid([]) && finished == []
    {
      this.reverse := reverse;
      this.key := key;
      this.includeSelf := includeSelf;
      this.visited := {};
      this.ordered := [];
      this.finished := [];
    }

    method Visit(name: string, ghost open: seq<string>, ghost universe: set<string>)
      requires Valid(open) && visited <= universe && name in universe
      requires forall a, b :: Edge(reverse, a, b) ==> b in universe
      requires WalkBetween(reverse, open + [name], key, name)
      modifies this
      ensures Valid(open) && visited <= universe
      ensures old(visited) <= visited && name in visited
      ensures name !in old(visited) ==> finished != [] && Last(finished) == name
      decreases universe - visited, 0
    {
      if name in visited {
        return;
      }
      Enter(name, open);
      VisitAll(Succ(reverse, name), name, open + [name], universe);
      Leave(name, open);
    }

    /** The `for` loop of `visit`. */
    method VisitAll(dependents: seq<string>, name: string, ghost path: seq<string>, ghost universe: set<string>)
      requires Valid(path) && visited <= universe
      requires forall a, b :: Edge(reverse, a, b) ==> b in universe
      requires WalkBetween(reverse, path, key, name) && dependents == Succ(reverse, name)
      modifies this
      ensures Valid(path) && visited <= universe
      ensures old(visited) <= visited
      ensures forall d :: d in dependents ==> d in visited
      decreases universe - visited, 1
    {
      var i := 0;
      while i < |dependents|
        invariant 0 <= i <= |dependents|
        invariant Valid(path) && visited <= universe
        invariant old(visited) <= visited
        invariant forall j :: 0 <= j < i ==> dependents[j] in visited
      {
        assert Edge(reverse, name, dependents[i]);
        WalkExtend(reverse, path, dependents[i]);
        Visit(dependents[i], path, universe);
        i := i + 1;
      }
    }

    method Enter(name: string, ghost open: seq<string>)
      requires Valid(open) && name !in visited
      modifies this`visited
      ensures Valid(open + [name]) && visited == old(visited) + {name}
    {
      ExploredEnter(reverse, key, finished, open, visited, name);
      visited := visited + {name};
    }

    method Leave(name: string, ghost open: seq<string>)
      requires Valid(open + [name]) && name !in open
      requires WalkBetween(reverse, open + [name], key, name)
      requires forall d :: d in Succ(reverse, name) ==> d in visited
      modifies this`ordered, this`finished
      ensures Valid(open)
      ensures finished == old(finished) + [name]
    {
      if includeSelf || name != key {
        ordered := ordered + [name];
      }
      OmitAppend(finished, name, includeSelf, key);
      ExploredLeave(reverse, key, finished, open, visited, name);
      finished := finished + [name];
    }
  }

  /** The reverse adjacency lists, filled entry by entry. */
  method BuildReverse(g: Graph, keys: seq<string>) returns (r: Graph)
    requires forall k :: k in keys <==> k in g
    ensures IsReverse(g, r)
  {
    r := map[];
    var i := 0;
    while i < |keys|
      invariant 0 <= i <= |keys|
      invariant forall a, b :: Edge(r, b, a) <==> a in keys[..i] && Edge(g, a, b)
    {
      var name := keys[i];
      assert name in keys;
      var deps := g[name];
      var j := 0;
      while j < |deps|
        invariant 0 <= j <= |deps|
        invariant forall a, b :: Edge(r, b, a) <==>
          (a in keys[..i] && Edge(g, a, b)) || (a == name && b in deps[..j])
      {
        var dep := deps[j];
        assert deps[..j + 1] == deps[..j] + [dep];
        ghost var before := r;
        r := r[dep := Succ(r, dep) + [name]];
        assert forall a, b :: Edge(r, b, a) <==> Edge(before, b, a) || (a == name && b == dep);
        j := j + 1;
      }
      assert deps[..|deps|] == deps;
      assert keys[..i + 1] == keys[..i] + [name];
      i := i + 1;
    }
    assert keys[..|keys|] == keys;
  }

  method ResolveDependentOrder(g: Graph, keys: seq<string>, target: string, includeSelf: bool)
    returns (r: Result<seq<string>>)
    requires forall k :: k in keys <==> k in g
    ensures r.Err? <==> Normalize(target) !in g
    ensures r.Err? ==> r.error == UnknownTarget(target)
    ensures r.Ok? && includeSelf ==> IsStopOrder(g, Normalize(target), r.value)
    ensures r.Ok? ==> exists order ::
      IsStopOrder(g, Normalize(target), order) && r.value == Omit(order, includeSelf, Normalize(target))
  {
    var key := Normalize(target);
    if key !in g {
      return Err(UnknownTarget(target));
    }
    var reverse := BuildReverse(g, keys);
    var visitor := new DependentVisitor(reverse, key, includeSelf);
    assert [] + [key] == [key];
    forall a, b | Edge(reverse, a, b)
      ensures b in g.Keys
    {
      assert Edge(g, b, a);
    }
    visitor.Visit(key, [], g.Keys);
    ghost var order := visitor.finished;
    forall x
      ensures x in order <==> Reach(reverse, key, x)
    {
      if Reach(reverse, key, x) {
        ReachInside(reverse, key, x, visitor.visited);
      }
    }
    StopOrderFromReverse(g, reverse, key, order);
    return Ok(visitor.ordered);
  }

  /** Where both orders read the same graph, as for clusters: starting `y` starts `x` exactly when
      stopping `x` stops `y`. */
  lemma StartStopDuality(g: Graph, x: string, y: string, start: seq<string>, stop: seq<string>)
    requires IsStartOrder(g, y, start) && IsStopOrder(g, x, stop)
    ensures x in start <==> y in stop
    ensures x in start && Acyclic(g) ==> DependentsFirst(g, stop)
  {
    assert Reach(g, y, x) <==> x in start;
    assert Reach(g, y, x) <==> y in stop;
  }

  /** A `dependsOn` of its own that says what `dependencies` says, or none. */
  predicate Agrees(def: Definition) {
    def.dependsOn.Some? ==> NormalizeAll(def.dependsOn.value) == ServiceEdges(def)
  }

  /** Services are started along `dependencies` and stopped along `dependsOn || dependencies`. */
  lemma SameServiceGraphs(defs: Definitions)
    ensures ServiceGraph(defs) == ClusterGraph(defs) <==>
      forall name :: name in defs.entries ==> Agrees(defs.entries[name])
  {
    var starts, stops := ServiceGraph(defs), ClusterGraph(defs);
    forall name | name in defs.entries
      ensures starts[name] == stops[name] <==> Agrees(defs.entries[name])
    {
      EdgesRead(defs, name);
    }
    if forall name :: name in defs.entries ==> Agrees(defs.entries[name]) {
      assert forall name :: name in starts ==> starts[name] == stops[name];
      assert starts == stops;
    }
  }
}
