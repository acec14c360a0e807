/** Plugin load order: depth-first search with cycle detection, then a stable sort by depth. */
module PluginOrder {
  import opened Wrappers
  import opened Ordering

  datatype Id = Id(name: string)

  datatype Plugin = Plugin(id: Id, dependencies: seq<Id>)

  datatype LoadError = Circular(id: Id) | Undetected(id: Id, dependency: Id)

  /** `plugin_map`, reduced to what the search reads. */
  type Graph = map<Id, seq<Id>>

  const PLUGIN_ID: Plugin -> Id := (p: Plugin) => p.id

  function GraphOf(plugins: seq<Plugin>): (g: Graph)
    ensures forall i :: 0 <= i < |plugins| ==> plugins[i].id in g
    ensures forall id :: id in g ==>
      exists i :: 0 <= i < |plugins| && plugins[i].id == id && plugins[i].dependencies == g[id]
  {
    if plugins == [] then map[]
    else
      var n := |plugins| - 1;
      var g := GraphOf(plugins[..n])[plugins[n].id := plugins[n].dependencies];
      assert forall i :: 0 <= i < n ==> plugins[..n][i] == plugins[i];
      g
  }

  lemma GraphHasDependencies(plugins: seq<Plugin>, i: nat)
    requires DistinctBy(plugins, PLUGIN_ID) && i < |plugins|
    ensures GraphOf(plugins)[plugins[i].id] == plugins[i].dependencies
  {
    var j :| 0 <= j < |plugins| && plugins[j].id == plugins[i].id &&
      plugins[j].dependencies == GraphOf(plugins)[plugins[i].id];
    assert i == j;
  }

  // ----- paths, cycles and chains -----

  /** Each element depends on the next. */
  ghost predicate IsPath(g: Graph, path: seq<Id>) {
    forall i :: 0 <= i < |path| - 1 ==> path[i] in g && path[i + 1] in g[path[i]]
  }

  ghost predicate IsCycle(g: Graph, path: seq<Id>) {
    |path| >= 2 && path[0] == path[|path| - 1] && IsPath(g, path)
  }

  ghost predicate OnCycle(g: Graph, id: Id) { exists path :: IsCycle(g, path) && path[0] == id }

  ghost predicate HasCycle(g: Graph) { exists path :: IsCycle(g, path) }

  ghost predicate Lacks(g: Graph, id: Id) { id in g && exists d :: d in g[id] && d !in g }

  ghost predicate HasUndetected(g: Graph) { exists id :: Lacks(g, id) }

  /** The error names a plugin on a cycle, or a plugin and a dependency of it that was not detected. */
  ghost predicate Justified(g: Graph, error: LoadError) {
    match error
    case Circular(id) => OnCycle(g, id)
    case Undetected(id, d) => id in g && d in g[id] && d !in g
  }

  lemma JustifiedMeansBroken(g: Graph, error: LoadError)
    requires Justified(g, error)
    ensures HasCycle(g) || HasUndetected(g)
  {
    match error {
      case Circular(id) =>
        var path :| IsCycle(g, path) && path[0] == id;
      case Undetected(id, d) => assert Lacks(g, id);
    }
  }

  /** A chain of dependencies that starts at `id`. */
  ghost predicate IsChain(g: Graph, id: Id, chain: seq<Id>) {
    chain != [] && chain[0] == id && IsPath(g, chain)
  }

  ghost predicate HasChain(g: Graph, id: Id, length: int) { exists c :: IsChain(g, id, c) && |c| == length }

  ghost predicate IsLongestChain(g: Graph, id: Id, length: int) {
    HasChain(g, id, length) && forall c :: IsChain(g, id, c) ==> |c| <= length
  }

  // ----- depths -----

  /** The largest recorded order among the given plugins, 0 for none. */
  function MaxOrder(order: map<Id, int>, ids: seq<Id>): (m: int)
    requires forall d :: d in ids ==> d in order
    ensures forall d :: d in ids ==> order[d] <= m
    ensures m == 0 || exists d :: d in ids && order[d] == m
    ensures m >= 0
  {
    if ids == [] then 0
    else
      var n := |ids| - 1;
      var m := MaxOrder(order, ids[..n]);
      assert forall d :: d in ids ==> d in ids[..n] || d == ids[n];
      assert ids[n] in ids && forall d :: d in ids[..n] ==> d in ids;
      if order[ids[n]] > m then order[ids[n]] else m
  }

  /** Finished plugins: their dependencies are finished, and each is one deeper than the deepest of them. */
  ghost predicate Ranked(g: Graph, order: map<Id, int>) { forall v :: v in order ==> RankedAt(g, order, v) }

  ghost predicate RankedAt(g: Graph, order: map<Id, int>, v: Id)
    requires v in order
  {
    && v in g
    && (forall d :: d in g[v] ==> d in order)
    && order[v] == MaxOrder(order, g[v]) + 1
  }

  ghost predicate Extends(order: map<Id, int>, before: map<Id, int>) {
    forall v :: v in before ==> v in order && order[v] == before[v]
  }

  lemma ExtendsThrough(order: map<Id, int>, middle: map<Id, int>, before: map<Id, int>)
    requires Extends(order, middle) && Extends(middle, before)
    ensures Extends(order, before)
  {
  }

  lemma ExtendsItself(order: map<Id, int>)
    ensures Extends(order, order)
  {
  }

  lemma {:induction false} MaxOrderStable(order: map<Id, int>, bigger: map<Id, int>, ids: seq<Id>)
    requires forall d :: d in ids ==> d in order
    requires Extends(bigger, order)
    ensures forall d :: d in ids ==> d in bigger
    ensures MaxOrder(bigger, ids) == MaxOrder(order, ids)
  {
    if ids != [] {
      assert forall d :: d in ids[..|ids| - 1] ==> d in ids;
      MaxOrderStable(order, bigger, ids[..|ids| - 1]);
    }
  }

  lemma RankedExtends(g: Graph, order: map<Id, int>, id: Id, depth: int)
    requires Ranked(g, order) && id in g && id !in order
    requires forall d :: d in g[id] ==> d in order
    requires depth == MaxOrder(order, g[id]) + 1
    ensures Ranked(g, order[id := depth])
  {
    var bigger := order[id := depth];
    hide RankedAt, MaxOrder;
    NewIsRanked(g, order, bigger, id, depth);
    forall v | v in order ensures RankedAt(g, bigger, v) { RankStays(g, order, bigger, v); }
  }

  lemma NewIsRanked(g: Graph, order: map<Id, int>, bigger: map<Id, int>, id: Id, depth: int)
    requires id in g && id !in order && bigger == order[id := depth]
    requires forall d :: d in g[id] ==> d in order
    requires depth == MaxOrder(order, g[id]) + 1
    ensures RankedAt(g, bigger, id)
  {
    MaxOrderStable(order, bigger, g[id]);
    hide MaxOrder;
  }

  lemma RankStays(g: Graph, order: map<Id, int>, bigger: map<Id, int>, v: Id)
    requires v in order && RankedAt(g, order, v) && Extends(bigger, order)
    ensures RankedAt(g, bigger, v)
  {
    hide MaxOrder;
    MaxOrderStable(order, bigger, g[v]);
  }

  // ----- the search -----

  /** `path` is the branch of the search that leads to `id`; its members are the recursion stack. */
  ghost predicate OnBranch(g: Graph, stack: set<Id>, path: seq<Id>, id: Id) {
    IsPath(g, path + [id]) && forall v :: v in path <==> v in stack
  }

  class Search {
    const graph: Graph
    var visited: set<Id>
    var recStack: set<Id>
    var order: map<Id, int>

    constructor (g: Graph)
      ensures graph == g && Valid() && visited == {} && recStack == {} && order == map[]
    {
      graph, visited, recStack, order := g, {}, {}, map[];
    }

    ghost predicate Valid()
      reads this
    {
      visited == order.Keys && Ranked(graph, order) && visited !! recStack && recStack <= graph.Keys
    }

    method Dfs(id: Id, ghost path: seq<Id>) returns (r: Result<int, LoadError>)
      requires Valid() && id in graph && OnBranch(graph, recStack, path, id)
      modifies this
      ensures r.Success? ==> Valid() && recStack == old(recStack) && Extends(order, old(order))
      ensures r.Success? ==> id in order && r.value == order[id]
      ensures r.Failure? ==> Justified(graph, r.error)
      decreases |graph.Keys - recStack|
    {
      hide Ranked, OnBranch, Justified, MaxOrder, Extends;
      ExtendsItself(order);
      if id in visited { return Success(order[id]); }
      if id in recStack {
        CycleOnBranch(graph, recStack, path, id);
        return Failure(Circular(id));
      }
      ghost var before, stack := order, recStack;
      StackGrows(graph.Keys, recStack, id);
      recStack := recStack + {id};
      assert recStack <= graph.Keys;
      var maxDepOrder := 0;
      ghost var soFar := order;
      var dependencies := graph[id];
      MaxOfNone(order);
      for i := 0 to |dependencies|
        invariant Valid() && recStack == stack + {id} && Extends(order, before) && id !in order
        invariant forall d :: d in dependencies[..i] ==> d in order
        invariant maxDepOrder == MaxOrder(order, dependencies[..i])
      {
        var d := dependencies[i];
        if d !in graph {
          UndetectedIsJustified(graph, id, d);
          return Failure(Undetected(id, d));
        }
        BranchGrows(graph, stack, path, id, d);
        soFar := order;
        var depth := Dfs(d, path + [id]);
        if depth.Failure? { return depth; }
        assert dependencies[..i + 1] == dependencies[..i] + [d];
        ExtendsThrough(order, soFar, before);
        MaxOrderStable(soFar, order, dependencies[..i]);
        MaxOrderSnoc(order, dependencies[..i], d);
        if depth.value > maxDepOrder { maxDepOrder := depth.value; }
      }
      soFar := order;
      assert dependencies[..|dependencies|] == dependencies;
      Finish(id, maxDepOrder);
      StackReturns(stack, id);
      ExtendsThrough(order, soFar, before);
      r := Success(order[id]);
    }

    /** All dependencies are done: `id` leaves the stack and gets its depth. */
    method Finish(id: Id, maxDepOrder: int)
      requires Valid() && id in recStack && id in graph && id !in order
      requires forall d :: d in graph[id] ==> d in order
      requires maxDepOrder == MaxOrder(order, graph[id])
      modifies this
      ensures Valid() && recStack == old(recStack) - {id}
      ensures Extends(order, old(order)) && id in order && order[id] == maxDepOrder + 1
    {
      hide Ranked, MaxOrder;
      RankedExtends(graph, order, id, maxDepOrder + 1);
      recStack := recStack - {id};
      visited := visited + {id};
      order := order[id := maxDepOrder + 1];
    }
  }

  lemma StackGrows(all: set<Id>, stack: set<Id>, id: Id)
    requires id in all && id !in stack
    ensures |all - (stack + {id})| < |all - stack|
  {
    assert all - stack == (all - (stack + {id})) + {id};
  }

  lemma StackReturns(stack: set<Id>, id: Id)
    requires id !in stack
    ensures (stack + {id}) - {id} == stack
  {
  }

  lemma UndetectedIsJustified(g: Graph, id: Id, d: Id)
    requires id in g && d in g[id] && d !in g
    ensures Justified(g, Undetected(id, d))
  {
  }

  lemma MaxOfNone(order: map<Id, int>)
    ensures MaxOrder(order, []) == 0
  {
  }

  lemma RootIsOnBranch(g: Graph, id: Id)
    ensures OnBranch(g, {}, [], id)
  {
  }

  lemma MaxOrderSnoc(order: map<Id, int>, ids: seq<Id>, d: Id)
    requires (forall x :: x in ids ==> x in order) && d in order
    ensures forall x :: x in ids + [d] ==> x in order
    ensures MaxOrder(order, ids + [d]) == if order[d] > MaxOrder(order, ids) then order[d] else MaxOrder(order, ids)
  {
    assert (ids + [d])[..|ids|] == ids;
  }

  lemma BranchGrows(g: Graph, stack: set<Id>, path: seq<Id>, id: Id, d: Id)
    requires OnBranch(g, stack, path, id) && id in g && d in g[id]
    ensures OnBranch(g, stack + {id}, path + [id], d)
  {
    var all := path + [id] + [d];
    forall i | 0 <= i < |all| - 1 ensures all[i] in g && all[i + 1] in g[all[i]] {
      if i < |path| { assert (path + [id])[i] == all[i] && (path + [id])[i + 1] == all[i + 1]; }
    }
  }

  lemma CycleOnBranch(g: Graph, stack: set<Id>, path: seq<Id>, id: Id)
    requires OnBranch(g, stack, path, id) && id in stack
    ensures Justified(g, Circular(id))
  {
    var k :| 0 <= k < |path| && path[k] == id;
    var all := path + [id];
    var cycle := all[k..];
    assert forall i :: 0 <= i < |cycle| ==> cycle[i] == all[k + i];
    assert IsCycle(g, cycle);
  }

  // ----- what a finished search proves -----

  lemma DependencyIsLower(g: Graph, order: map<Id, int>, id: Id)
    requires Ranked(g, order) && order.Keys == g.Keys && id in g
    ensures order[id] >= 1
    ensures forall d :: d in g[id] ==> d in g && 1 <= order[d] < order[id]
  {
    hide MaxOrder;
  }

  lemma PathTail(g: Graph, path: seq<Id>)
    requires IsPath(g, path) && |path| > 1
    ensures IsPath(g, path[1..]) && path[0] in g && path[1] in g[path[0]]
  {
    assert forall i :: 0 <= i < |path[1..]| ==> path[1..][i] == path[i + 1];
  }

  /** Orders fall along every path, so chains are no longer than the order of their first plugin. */
  lemma {:induction false} PathsFall(g: Graph, order: map<Id, int>, path: seq<Id>)
    requires Ranked(g, order) && order.Keys == g.Keys && IsPath(g, path) && path != [] && path[0] in g
    ensures path[|path| - 1] in g
    ensures 1 <= order[path[|path| - 1]] <= order[path[0]] - |path| + 1
    decreases |path|
  {
    hide Ranked, IsPath;
    DependencyIsLower(g, order, path[0]);
    if |path| > 1 {
      PathTail(g, path);
      PathsFall(g, order, path[1..]);
    }
  }

  lemma RankedOrder(g: Graph, order: map<Id, int>, id: Id)
    requires Ranked(g, order) && id in order
    ensures id in g && (forall d :: d in g[id] ==> d in order) && order[id] == MaxOrder(order, g[id]) + 1
  {
    hide MaxOrder;
  }

  lemma RankedWithinGraph(g: Graph, order: map<Id, int>)
    requires Ranked(g, order)
    ensures order.Keys <= g.Keys
  {
    hide MaxOrder;
  }

  lemma ChainGrows(g: Graph, id: Id, d: Id, length: int)
    requires id in g && d in g[id] && HasChain(g, d, length)
    ensures HasChain(g, id, length + 1)
  {
    var c :| IsChain(g, d, c) && |c| == length;
    var all := [id] + c;
    assert forall i :: 0 < i < |all| ==> all[i] == c[i - 1];
    assert IsChain(g, id, all);
  }

  lemma ChainOfOne(g: Graph, id: Id)
    ensures HasChain(g, id, 1)
  {
    assert IsChain(g, id, [id]);
  }

  lemma {:induction false} LongestChainExists(g: Graph, order: map<Id, int>, id: Id)
    requires Ranked(g, order) && order.Keys == g.Keys && id in g
    ensures HasChain(g, id, order[id])
    decreases order[id]
  {
    hide HasChain, MaxOrder, Ranked;
    DependencyIsLower(g, order, id);
    RankedOrder(g, order, id);
    var m := MaxOrder(order, g[id]);
    if m == 0 {
      ChainOfOne(g, id);
    } else {
      var d :| d in g[id] && order[d] == m;
      LongestChainExists(g, order, d);
      ChainGrows(g, id, d, m);
    }
  }

  lemma RankedMeansLongest(g: Graph, order: map<Id, int>)
    requires Ranked(g, order) && order.Keys == g.Keys
    ensures !HasCycle(g) && !HasUndetected(g)
    ensures forall id :: id in g ==> IsLongestChain(g, id, order[id])
  {
    if HasCycle(g) {
      var path :| IsCycle(g, path);
      PathsFall(g, order, path);
    }
    forall id | id in g ensures IsLongestChain(g, id, order[id]) {
      LongestChainExists(g, order, id);
      forall c | IsChain(g, id, c) ensures |c| <= order[id] { PathsFall(g, order, c); }
    }
  }

  /** Every dependency of a loaded plugin is loaded somewhere before it. */
  ghost predicate DependenciesFirst(loaded: seq<Plugin>) {
    forall i, d :: 0 <= i < |loaded| && d in loaded[i].dependencies ==> LoadedBefore(loaded, i, d)
  }

  ghost predicate LoadedBefore(loaded: seq<Plugin>, i: int, id: Id)
    requires i <= |loaded|
  {
    exists j :: 0 <= j < i && loaded[j].id == id
  }

  function ByOrder(order: map<Id, int>): (Plugin, Plugin) -> bool {
    (x: Plugin, y: Plugin) => Depth(order, x) <= Depth(order, y)
  }

  function Depth(order: map<Id, int>, p: Plugin): int { if p.id in order then order[p.id] else 0 }

  lemma DependencyComesFirst(plugins: seq<Plugin>, loaded: seq<Plugin>, order: map<Id, int>, i: nat, d: Id)
    requires DistinctBy(plugins, PLUGIN_ID) && multiset(loaded) == multiset(plugins)
    requires Ranked(GraphOf(plugins), order) && order.Keys == GraphOf(plugins).Keys
    requires SortedBy(loaded, ByOrder(order)) && i < |loaded| && d in loaded[i].dependencies
    ensures LoadedBefore(loaded, i, d)
  {
    hide Ranked, MaxOrder, GraphOf, DistinctBy;
    MultisetMembers(loaded, plugins);
    assert loaded[i] in plugins;
    var k :| 0 <= k < |plugins| && plugins[k] == loaded[i];
    GraphHasDependencies(plugins, k);
    DependencyIsLower(GraphOf(plugins), order, loaded[i].id);
    var m :| 0 <= m < |plugins| && plugins[m].id == d;
    assert plugins[m] in loaded;
    var j :| 0 <= j < |loaded| && loaded[j] == plugins[m];
    assert !ByOrder(order)(loaded[i], loaded[j]);
  }

  lemma SortedPutsDependenciesFirst(plugins: seq<Plugin>, loaded: seq<Plugin>, order: map<Id, int>)
    requires DistinctBy(plugins, PLUGIN_ID) && multiset(loaded) == multiset(plugins)
    requires Ranked(GraphOf(plugins), order) && order.Keys == GraphOf(plugins).Keys
    requires SortedBy(loaded, ByOrder(order))
    ensures DependenciesFirst(loaded)
  {
    hide Ranked, GraphOf, DistinctBy, SortedBy, LoadedBefore;
    forall i, d | 0 <= i < |loaded| && d in loaded[i].dependencies ensures LoadedBefore(loaded, i, d) {
      DependencyComesFirst(plugins, loaded, order, i, d);
    }
  }

  lemma ByOrderIsTotal(order: map<Id, int>)
    ensures TotalPreorder(ByOrder(order))
  {
  }

  /**
   * Fails exactly when some dependency is undetected or the graph has a cycle, and names one. Otherwise the result is a
   * permutation of the plugins with dependencies first, ordered by the length of the longest dependency chain.
   */
  method DetermineLoadOrder(plugins: seq<Plugin>) returns (r: Result<seq<Plugin>, LoadError>, order: map<Id, int>)
    requires DistinctBy(plugins, PLUGIN_ID)
    ensures r.Failure? <==> HasCycle(GraphOf(plugins)) || HasUndetected(GraphOf(plugins))
    ensures r.Failure? ==> Justified(GraphOf(plugins), r.error)
    ensures r.Success? ==> multiset(r.value) == multiset(plugins) && DependenciesFirst(r.value)
    ensures r.Success? ==> order.Keys == GraphOf(plugins).Keys
    ensures r.Success? ==> forall id :: id in order ==> IsLongestChain(GraphOf(plugins), id, order[id])
    ensures r.Success? ==> SortedBy(r.value, ByOrder(order))
    ensures r.Success? ==> forall p: Plugin :: Ties(r.value, p, ByOrder(order)) == Ties(plugins, p, ByOrder(order))
  {
    hide Ranked, OnBranch, HasCycle, HasUndetected, Justified, GraphOf, DistinctBy, SortedBy, IsLongestChain,
      DependenciesFirst, SortBy;
    var graph := GraphOf(plugins);
    var search := new Search(graph);
    order := map[];
    for i := 0 to |plugins|
      invariant search.Valid() && search.graph == graph && search.recStack == {}
      invariant forall j :: 0 <= j < i ==> plugins[j].id in search.visited
    {
      if plugins[i].id !in search.visited {
        RootIsOnBranch(graph, plugins[i].id);
        var depth := search.Dfs(plugins[i].id, []);
        if depth.Failure? {
          JustifiedMeansBroken(graph, depth.error);
          return Failure(depth.error), order;
        }
      }
    }
    order := search.order;
    RankedWithinGraph(graph, order);
    assert order.Keys == graph.Keys;
    RankedMeansLongest(graph, order);
    var loaded := SortBy(plugins, ByOrder(order));
    ByOrderIsTotal(order);
    SortByIsSorted(plugins, ByOrder(order));
    SortedPutsDependenciesFirst(plugins, loaded, order);
    forall p: Plugin ensures Ties(loaded, p, ByOrder(order)) == Ties(plugins, p, ByOrder(order)) {
      SortByIsStable(plugins, p, ByOrder(order));
    }
    r := Success(loaded);
  }
}
