/** The workspace dependency lint: depth-first cycle search over the closed package graph. */
module CycleFinder {
  import opened Prelude
  import opened Ordering

  type Graph = map<string, set<string>>

  predicate Closed(g: Graph) {
    forall n, m | n in g && m in g[n] :: m in g
  }

  /** Consecutive nodes are joined by edges. */
  predicate Chain(g: Graph, p: seq<string>) {
    && (forall i | 0 <= i < |p| :: p[i] in g)
    && (forall i | 0 <= i < |p| - 1 :: p[i] in g && p[i + 1] in g[p[i]])
  }

  predicate Cycle(g: Graph, c: seq<string>) {
    |c| >= 2 && Chain(g, c) && c[0] == c[|c| - 1]
  }

  ghost predicate Acyclic(g: Graph) {
    forall c :: !Cycle(g, c)
  }

  /** Every ranked node's dependencies are ranked, and ranked lower. */
  predicate Ranked(g: Graph, rank: map<string, nat>) {
    forall n, m | n in rank && n in g && m in g[n] :: m in rank && rank[m] < rank[n]
  }

  lemma {:induction false} RanksFall(g: Graph, rank: map<string, nat>, c: seq<string>, k: nat)
    requires Chain(g, c) && Ranked(g, rank) && 0 < k < |c| && c[0] in rank
    ensures c[k] in rank && rank[c[k]] < rank[c[0]]
  {
    if k > 1 { RanksFall(g, rank, c, k - 1); }
    assert c[k - 1 + 1] in g[c[k - 1]];
  }

  lemma RankedMeansAcyclic(g: Graph, rank: map<string, nat>)
    requires Ranked(g, rank) && g.Keys <= rank.Keys
    ensures Acyclic(g)
  {
    forall c | Cycle(g, c) ensures false {
      RanksFall(g, rank, c, |c| - 1);
    }
  }

  method IndexOf(s: seq<string>, x: string) returns (i: nat)
    requires x in s
    ensures i < |s| && s[i] == x && x !in s[..i]
  {
    i := 0;
    while s[i] != x
      invariant i < |s| && x !in s[..i]
      decreases |s| - i
    {
      i := i + 1;
    }
  }

  /** The active path is a simple chain of unfinished nodes, and finished nodes are ranked below the clock. */
  predicate Searching(g: Graph, active: seq<string>, visited: set<string>, rank: map<string, nat>, clock: nat) {
    && Closed(g) && Chain(g, active)
    && (forall i, j | 0 <= i < j < |active| :: active[i] != active[j])
    && visited <= g.Keys && (forall n | n in active :: n !in visited)
    && rank.Keys == visited && Ranked(g, rank)
    && forall n | n in rank :: rank[n] < clock
  }

  lemma Opens(g: Graph, active: seq<string>, visited: set<string>, rank: map<string, nat>, clock: nat, node: string)
    requires Searching(g, active, visited, rank, clock) && Chain(g, active + [node]) && node !in active
        && node !in visited
    ensures Searching(g, active + [node], visited, rank, clock)
  {
  }

  lemma Closes(g: Graph, active: seq<string>, visited: set<string>, rank: map<string, nat>, clock: nat, node: string)
    requires Searching(g, active + [node], visited, rank, clock) && node in g && forall m | m in g[node] :: m in visited
    ensures Searching(g, active, visited + {node}, rank[node := clock], clock + 1)
  {
    var path := active + [node];
    assert forall i | 0 <= i < |active| :: path[i] == active[i];
    assert path[|active|] == node;
    forall n | n in active ensures n !in visited + {node} {
      var i :| 0 <= i < |active| && active[i] == n;
      assert path[i] != path[|active|] && path[i] in path;
    }
  }

  lemma Looks(g: Graph, active: seq<string>, visited: set<string>, rank: map<string, nat>, clock: nat, m: string)
    requires Searching(g, active, visited, rank, clock) && active != [] && active[|active| - 1] in g
    requires m in g[active[|active| - 1]]
    ensures m in g && Chain(g, active + [m])
  {
    ChainExtends(g, active, m);
  }

  class Search {
    const graph: Graph
    var active: seq<string>
    var visited: set<string>
    /** When each visited node was finished. */
    ghost var rank: map<string, nat>
    ghost var clock: nat

    ghost predicate Valid()
      reads this
    {
      Searching(graph, active, visited, rank, clock)
    }

    constructor (g: Graph)
      requires Closed(g)
      ensures Valid() && graph == g && active == [] && visited == {}
    {
      graph, active, visited, rank, clock := g, [], {}, map[], 0;
    }

    ghost function Unopened(): set<string>
      reads this
    {
      set n | n in graph && n !in active
    }

    method Visit(node: string) returns (cycle: Option<seq<string>>)
      requires Valid() && node in graph && Chain(graph, active + [node])
      modifies this
      ensures Valid() && old(visited) <= visited
      ensures cycle.Some? ==> Cycle(graph, cycle.value)
      ensures cycle.None? ==> active == old(active) && node in visited
      decreases Unopened()
    {
      if node in active {
        var start := IndexOf(active, node);
        ghost var whole := active + [node];
        assert active[start..] + [node] == whole[start..];
        ChainSuffix(graph, whole, start);
        return Some(active[start..] + [node]);
      }
      if node in visited { return None; }
      hide Searching, Chain, Cycle;
      ghost var path := active;
      Opens(graph, active, visited, rank, clock, node);
      active := active + [node];
      var dependencies := Sorted(graph[node]);
      var k := 0;
      while k < |dependencies|
        invariant k <= |dependencies| && Valid() && active == path + [node] && old(visited) <= visited
        invariant forall i | 0 <= i < k :: dependencies[i] in visited
      {
        assert node in old(Unopened()) && node !in Unopened();
        Looks(graph, active, visited, rank, clock, dependencies[k]);
        cycle := Visit(dependencies[k]);
        if cycle.Some? { return cycle; }
        k := k + 1;
      }
      Closes(graph, path, visited, rank, clock, node);
      active := active[..|active| - 1];
      visited := visited + {node};
      rank := rank[node := clock];
      clock := clock + 1;
      return None;
    }
  }

  lemma ChainSuffix(g: Graph, p: seq<string>, k: nat)
    requires Chain(g, p) && k <= |p|
    ensures Chain(g, p[k..])
  {
    var q := p[k..];
    forall i | 0 <= i < |q| - 1 ensures q[i] in g && q[i + 1] in g[q[i]] {
      assert q[i] == p[k + i] && q[i + 1] == p[(k + i) + 1];
    }
  }

  lemma ChainExtends(g: Graph, p: seq<string>, m: string)
    requires Chain(g, p) && p != [] && m in g && m in g[p[|p| - 1]]
    ensures Chain(g, p + [m])
  {
  }

  /** `find_cycle`: a cycle of the graph, or None exactly when there is none. */
  method FindCycle(g: Graph) returns (cycle: Option<seq<string>>)
    requires Closed(g)
    ensures cycle.Some? ==> Cycle(g, cycle.value)
    ensures cycle.None? <==> Acyclic(g)
  {
    var search := new Search(g);
    var nodes := Sorted(g.Keys);
    var k := 0;
    while k < |nodes|
      invariant k <= |nodes| && fresh(search) && search.Valid() && search.graph == g && search.active == []
      invariant forall i | 0 <= i < k :: nodes[i] in search.visited
    {
      cycle := search.Visit(nodes[k]);
      if cycle.Some? { return; }
      k := k + 1;
    }
    RankedMeansAcyclic(g, search.rank);
    return None;
  }

  // ----- Building the graph -----

  /** A dependency line: its table key and, for a detailed spec, a `package` rename. */
  datatype Entry = Entry(name: string, package: Option<string>)

  datatype Tables = Tables(dependencies: seq<Entry>, build: seq<Entry>)

  /** A manifest's top-level tables and its per-target tables. */
  datatype Manifest = Manifest(top: Tables, targets: seq<Tables>)

  function PackageOf(e: Entry): string {
    if e.package.Some? then e.package.value else e.name
  }

  predicate Names(t: Tables, p: string) {
    (exists e | e in t.dependencies :: PackageOf(e) == p) || (exists e | e in t.build :: PackageOf(e) == p)
  }

  /** Some table of the manifest names the package. */
  predicate Declares(m: Manifest, p: string) {
    Names(m.top, p) || exists t | t in m.targets :: Names(t, p)
  }

  predicate Mentions(tables: seq<seq<Entry>>, p: string) {
    exists i | 0 <= i < |tables| :: exists e | e in tables[i] :: PackageOf(e) == p
  }

  lemma MentionsGrow(tables: seq<seq<Entry>>, t: seq<Entry>, p: string)
    ensures Mentions(tables + [t], p) <==> Mentions(tables, p) || exists e | e in t :: PackageOf(e) == p
  {
    var all := tables + [t];
    if Mentions(tables, p) {
      var i :| 0 <= i < |tables| && exists e | e in tables[i] :: PackageOf(e) == p;
      assert all[i] == tables[i];
    }
    if exists e | e in t :: PackageOf(e) == p { assert all[|tables|] == t; }
  }

  lemma DeclaresGrow(m: Manifest, k: nat, p: string)
    requires k < |m.targets|
    ensures Declares(m.(targets := m.targets[..k + 1]), p) <==>
            Declares(m.(targets := m.targets[..k]), p) || Names(m.targets[k], p)
  {
    assert m.targets[..k + 1] == m.targets[..k] + [m.targets[k]];
  }

  /** The tables in reading order: top-level first, then each target's. */
  method AllTables(m: Manifest) returns (tables: seq<seq<Entry>>)
    ensures forall p :: Mentions(tables, p) <==> Declares(m, p)
  {
    tables := [m.top.dependencies, m.top.build];
    forall p ensures Mentions(tables, p) <==> Declares(m.(targets := []), p) {
      MentionsGrow([], m.top.dependencies, p);
      MentionsGrow([] + [m.top.dependencies], m.top.build, p);
      assert tables == ([] + [m.top.dependencies]) + [m.top.build];
    }
    assert m.targets[..0] == [];
    for k := 0 to |m.targets|
      invariant forall p :: Mentions(tables, p) <==> Declares(m.(targets := m.targets[..k]), p)
    {
      var t := m.targets[k];
      forall p ensures Mentions(tables + [t.dependencies, t.build], p) <==>
                       Declares(m.(targets := m.targets[..k + 1]), p)
      {
        MentionsGrow(tables, t.dependencies, p);
        MentionsGrow(tables + [t.dependencies], t.build, p);
        assert tables + [t.dependencies, t.build] == (tables + [t.dependencies]) + [t.build];
        DeclaresGrow(m, k, p);
      }
      tables := tables + [t.dependencies, t.build];
    }
    assert m.targets[..|m.targets|] == m.targets;
  }

  /** `dependencies`: exactly the workspace packages some table of the manifest names. */
  method Dependencies(m: Manifest, workspace: set<string>) returns (found: set<string>)
    ensures forall p :: p in found <==> p in workspace && Declares(m, p)
  {
    hide Declares;
    found := {};
    var tables := AllTables(m);
    for k := 0 to |tables|
      invariant forall p :: p in found <==> p in workspace && Mentions(tables[..k], p)
    {
      var table := tables[k];
      ghost var was := found;
      for j := 0 to |table|
        invariant forall p :: p in found <==>
                    (p in was || (p in workspace && exists e | e in table[..j] :: PackageOf(e) == p))
      {
        var package := PackageOf(table[j]);
        assert table[..j + 1] == table[..j] + [table[j]];
        if package in workspace { found := found + {package}; }
      }
      assert table[..|table|] == table;
      assert tables[..k + 1] == tables[..k] + [table];
      forall p ensures p in found <==> p in workspace && Mentions(tables[..k + 1], p) {
        MentionsGrow(tables[..k], table, p);
      }
    }
    assert tables[..|tables|] == tables;
  }

  /** The edges of the workspace graph, read off the manifests. */
  predicate Depends(packages: map<string, Manifest>, owner: string, dep: string) {
    owner in packages && dep in packages && Declares(packages[owner], dep)
  }

  method BuildGraph(packages: map<string, Manifest>) returns (g: Graph)
    ensures Closed(g) && g.Keys == packages.Keys
    ensures forall n, m | n in g :: m in g[n] <==> Depends(packages, n, m)
  {
    g := map[];
    var rest := packages.Keys;
    while rest != {}
      invariant rest <= packages.Keys && g.Keys == packages.Keys - rest
      invariant forall n, m | n in g :: m in g[n] <==> Depends(packages, n, m)
      decreases |rest|
    {
      var name :| name in rest;
      var found := Dependencies(packages[name], packages.Keys);
      g := g[name := found];
      rest := rest - {name};
    }
  }

  // ----- The lint -----

  datatype Failure = Forbidden(owner: string, dependency: string) | Circular(path: seq<string>)

  /** Layering rules in declaration order: an owner and the packages it must not depend on. */
  type Rules = seq<(string, set<string>)>

  const LOWER_LAYERS: Rules := [
    ("lillux", {"ryeos-state", "ryeos-engine", "ryeos-runtime", "ryeos-app",
                "ryeos-executor", "ryeos-api", "ryeos-node", "ryeos-ui"}),
    ("ryeos-state", {"ryeos-engine", "ryeos-runtime", "ryeos-app", "ryeos-executor",
                     "ryeos-api", "ryeos-node", "ryeos-ui"}),
    ("ryeos-engine", {"ryeos-app", "ryeos-executor", "ryeos-api", "ryeos-node", "ryeos-ui"}),
    ("ryeos-runtime", {"ryeos-app", "ryeos-executor", "ryeos-api", "ryeos-node", "ryeos-ui"}),
    ("ryeos-app", {"ryeos-executor", "ryeos-api", "ryeos-node", "ryeos-ui"}),
    ("ryeos-executor", {"ryeos-api", "ryeos-node", "ryeos-ui"})]

  /** The layer of each package the table speaks about. */
  function Layer(name: string): Option<nat> {
    if name == "lillux" then Some(0)
    else if name == "ryeos-state" then Some(1)
    else if name == "ryeos-engine" || name == "ryeos-runtime" then Some(2)
    else if name == "ryeos-app" then Some(3)
    else if name == "ryeos-executor" then Some(4)
    else if name == "ryeos-api" || name == "ryeos-node" || name == "ryeos-ui" then Some(5)
    else None
  }

  /** The dependency reaches from a lower layer into a higher one. */
  predicate Upward(owner: string, dep: string) {
    Layer(owner).Some? && Layer(dep).Some? && Layer(owner).value < Layer(dep).value
  }

  predicate DeniedBy(rules: Rules, i: nat, owner: string, dep: string)
    requires i < |rules|
  {
    rules[i].0 == owner && dep in rules[i].1
  }

  predicate Denied(rules: Rules, owner: string, dep: string) {
    exists i: nat | i < |rules| :: DeniedBy(rules, i, owner, dep)
  }

  /** Every layering violation of the graph, each an actual edge that some rule denies. */
  method ForbiddenEdges(g: Graph, rules: Rules) returns (failures: seq<Failure>)
    ensures forall f | f in failures :: f.Forbidden?
    ensures forall o, d :: Forbidden(o, d) in failures <==> o in g && d in g[o] && Denied(rules, o, d)
  {
    failures := [];
    for k := 0 to |rules|
      invariant forall f | f in failures :: f.Forbidden?
      invariant forall o, d :: Forbidden(o, d) in failures <==> o in g && d in g[o] && Denied(rules[..k], o, d)
    {
      var (owner, denied) := rules[k];
      var bad := Sorted((if owner in g then g[owner] else {}) * denied);
      ghost var was := failures;
      for j := 0 to |bad|
        invariant forall f | f in failures :: f.Forbidden?
        invariant forall o, d :: Forbidden(o, d) in failures <==>
                                 Forbidden(o, d) in was || (o == owner && d in bad[..j])
      {
        failures := failures + [Forbidden(owner, bad[j])];
      }
      assert bad[..|bad|] == bad;
      DeniedGrows(rules, k);
    }
    assert rules[..|rules|] == rules;
  }

  lemma DeniedGrows(rules: Rules, k: nat)
    requires k < |rules|
    ensures forall o, d :: Denied(rules[..k + 1], o, d) <==>
                           Denied(rules[..k], o, d) || (rules[k].0 == o && d in rules[k].1)
  {
    var p, q := rules[..k], rules[..k + 1];
    assert q == p + [rules[k]];
    forall o, d ensures Denied(q, o, d) <==> Denied(p, o, d) || (rules[k].0 == o && d in rules[k].1) {
      if Denied(p, o, d) {
        var i: nat :| i < |p| && DeniedBy(p, i, o, d);
        assert DeniedBy(q, i, o, d);
      }
      if rules[k].0 == o && d in rules[k].1 { assert DeniedBy(q, k, o, d); }
      if Denied(q, o, d) {
        var i: nat :| i < |q| && DeniedBy(q, i, o, d);
        assert i < k ==> DeniedBy(p, i, o, d);
      }
    }
  }

  /** The lint is clean exactly when no denied edge exists and the workspace graph is acyclic. */
  method Lint(packages: map<string, Manifest>, rules: Rules) returns (failures: seq<Failure>)
    ensures failures == [] <==>
            && (forall o, d | Depends(packages, o, d) :: !Denied(rules, o, d))
            && (forall c :: !Loop(packages, c))
  {
    var g := BuildGraph(packages);
    failures := ForbiddenEdges(g, rules);
    var cycle := FindCycle(g);
    CyclesOfWorkspace(packages, g);
    ghost var edges := failures;
    if cycle.Some? { failures := failures + [Circular(cycle.value)]; }
    if edges != [] {
      var f := edges[0];
      assert f in edges && f == Forbidden(f.owner, f.dependency);
      assert Depends(packages, f.owner, f.dependency) && Denied(rules, f.owner, f.dependency);
    }
    assert forall o, d | Depends(packages, o, d) && Denied(rules, o, d) :: Forbidden(o, d) in edges;
  }

  ghost predicate Loop(packages: map<string, Manifest>, c: seq<string>) {
    |c| >= 2 && c[0] == c[|c| - 1] && forall i | 0 <= i < |c| - 1 :: Depends(packages, c[i], c[i + 1])
  }

  lemma CyclesOfWorkspace(packages: map<string, Manifest>, g: Graph)
    requires Closed(g) && g.Keys == packages.Keys
    requires forall n, m | n in g :: m in g[n] <==> Depends(packages, n, m)
    ensures Acyclic(g) <==> forall c :: !Loop(packages, c)
  {
    forall c ensures Cycle(g, c) <==> Loop(packages, c) {
      if Loop(packages, c) {
        forall i | 0 <= i < |c| ensures c[i] in g {
          if i < |c| - 1 {
            assert Depends(packages, c[i], c[i + 1]);
          } else {
            assert Depends(packages, c[0], c[0 + 1]);
          }
        }
      }
    }
    if Acyclic(g) {
      forall c ensures !Loop(packages, c) { assert !Cycle(g, c); }
    }
  }

  /** Rule i of the table denies exactly the upward dependencies of its owner. */
  lemma RuleIsUpward(i: nat, dep: string)
    requires i < |LOWER_LAYERS|
    ensures dep in LOWER_LAYERS[i].1 <==> Upward(LOWER_LAYERS[i].0, dep)
  {
    if i == 0 { assert LOWER_LAYERS[i].0 == "lillux"; }
    else if i == 1 { assert LOWER_LAYERS[i].0 == "ryeos-state"; }
    else if i == 2 { assert LOWER_LAYERS[i].0 == "ryeos-engine"; }
    else if i == 3 { assert LOWER_LAYERS[i].0 == "ryeos-runtime"; }
    else if i == 4 { assert LOWER_LAYERS[i].0 == "ryeos-app"; }
    else { assert LOWER_LAYERS[i].0 == "ryeos-executor"; }
  }

  /** The table as a whole denies exactly what reaches upward through the layers. */
  lemma TableIsLayering(owner: string, dep: string)
    ensures Denied(LOWER_LAYERS, owner, dep) <==> Upward(owner, dep)
  {
    if Denied(LOWER_LAYERS, owner, dep) {
      var i: nat :| i < |LOWER_LAYERS| && DeniedBy(LOWER_LAYERS, i, owner, dep);
      RuleIsUpward(i, dep);
    }
    if Upward(owner, dep) {
      var i := if owner == "lillux" then 0 else if owner == "ryeos-state" then 1 else if owner == "ryeos-engine" then 2
               else if owner == "ryeos-runtime" then 3 else if owner == "ryeos-app" then 4 else 5;
      assert LOWER_LAYERS[i].0 == owner;
      RuleIsUpward(i, dep);
      assert DeniedBy(LOWER_LAYERS, i, owner, dep);
    }
  }

  /** The script's own check: clean exactly when no dependency reaches upward and none leads back to its start. */
  method LintWorkspace(packages: map<string, Manifest>) returns (failures: seq<Failure>)
    ensures failures == [] <==>
            && (forall o, d | Depends(packages, o, d) :: !Upward(o, d))
            && (forall c :: !Loop(packages, c))
  {
    hide Upward, Depends, Denied, Loop;
    failures := Lint(packages, LOWER_LAYERS);
    forall o, d ensures Denied(LOWER_LAYERS, o, d) <==> Upward(o, d) { TableIsLayering(o, d); }
  }
}
