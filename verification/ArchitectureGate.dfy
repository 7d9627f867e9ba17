/** The two cycle checks of scripts/architecture_gate.py: over modules (512-515) and over the
    capabilities that own them (236-288). */
module ArchitectureGate {
  import opened Options
  import opened Ordering
  import opened Graphs
  import Tarjan

  type Module = string
  type Capability = string

  /** Every name once, importers before what they import. */
  ghost predicate ModulesAreLayered(imports: map<Module, set<Module>>, order: seq<Module>) {
    && NoDuplicates(order) && Elements(order) == imports.Keys
    && forall i, j | 0 <= i < |order| && 0 <= j < |order| && Imports(imports, order[i], order[j]) :: i < j
  }

  /** `m` mentions another module `t`; a module's mention of itself is discarded (line 139). */
  ghost predicate Imports(imports: map<Module, set<Module>>, m: Module, t: Module) {
    m in imports && t in imports[m] && t in imports && t != m
  }

  /** One report of `cycle` errors on a graph without self-edges: empty exactly when the graph has a
      topological order. */
  lemma NoCycleReportedIffAcyclic(g: Graph, r: seq<seq<Node>>)
    requires NoSelfEdges(g) && Tarjan.IsReport(g, r)
    ensures r == [] <==> exists order :: TopologicalOrder(g, order)
  {
    AcyclicIffNoLargeComponent(g);
    if r != [] {
      assert Tarjan.IsNamedComponent(g, r[0]);
      DistinctCounts(r[0]);
      assert |Elements(r[0])| >= 2;
    } else {
      assert forall c | IsComponent(g, c) && |c| >= 2 :: exists names :: names in r && Elements(names) == c;
    }
  }

  /** The module graph: what each module mentions, itself discarded. */
  function ModuleGraph(mentioned: map<Module, set<Module>>): Graph {
    map m | m in mentioned :: mentioned[m] - {m}
  }

  /** Module t is one of m's successors in the graph exactly if m imports t. */
  lemma ModuleGraphIsImports(mentioned: map<Module, set<Module>>, m: Module, t: Module)
    ensures NoSelfEdges(ModuleGraph(mentioned)) && ModuleGraph(mentioned).Keys == mentioned.Keys
    ensures m in mentioned ==> (t in Successors(ModuleGraph(mentioned), m) <==> Imports(mentioned, m, t))
  {
  }

  method ModuleCycles(mentioned: map<Module, set<Module>>) returns (cycles: seq<seq<Module>>)
    ensures Tarjan.IsReport(ModuleGraph(mentioned), cycles)
    ensures cycles == [] <==> exists order :: ModulesAreLayered(mentioned, order)
  {
    var graph := ModuleGraph(mentioned);
    cycles := Tarjan.StronglyConnectedComponents(graph);
    NoCycleReportedIffAcyclic(graph, cycles);
    forall order ensures TopologicalOrder(graph, order) <==> ModulesAreLayered(mentioned, order) {
      assert forall m, t :: Imports(mentioned, m, t) <==> m in graph && t in Successors(graph, m);
    }
  }

  // Capabilities

  ghost predicate DependsOn(imports: map<Module, set<Module>>, owners: map<Module, Capability>, c: Capability,
                            d: Capability) {
    c != d && exists m, t :: m in imports && t in imports[m] && Links(owners, m, t, c, d)
  }

  predicate Links(owners: map<Module, Capability>, m: Module, t: Module, c: Capability, d: Capability) {
    m in owners && t in owners && owners[m] == c && owners[t] == d
  }

  ghost predicate CapabilitiesAreLayered(imports: map<Module, set<Module>>, owners: map<Module, Capability>,
                                         order: seq<Capability>) {
    && NoDuplicates(order) && Elements(order) == owners.Values
    && forall i, j | 0 <= i < |order| && 0 <= j < |order| && DependsOn(imports, owners, order[i], order[j]) :: i < j
  }

  /** `owners`: the modules for which some rule names a capability (246-252). */
  method Owners(imports: map<Module, set<Module>>, capabilityFor: Module -> Option<Capability>)
    returns (owners: map<Module, Capability>)
    ensures forall m :: m in owners <==> m in imports && capabilityFor(m).Some?
    ensures forall m | m in owners :: owners[m] == capabilityFor(m).value
  {
    owners := map[];
    var rest := imports.Keys;
    while rest != {}
      invariant rest <= imports.Keys
      invariant forall m :: m in owners <==> m in imports && m !in rest && capabilityFor(m).Some?
      invariant forall m | m in owners :: owners[m] == capabilityFor(m).value
      decreases rest
    {
      var m :| m in rest;
      match capabilityFor(m) {
        case None =>
        case Some(c) => owners := owners[m := c];
      }
      rest := rest - {m};
    }
  }

  /** The graph after the imports in `pairs` of the modules in `done` have been added. */
  ghost predicate GraphOf(owners: map<Module, Capability>, done: set<Module>, pairs: set<(Module, Module)>, g: Graph) {
    && g.Keys <= owners.Values
    && (forall m | m in done && m in owners :: owners[m] in g)
    && (forall c, d | c in g && d in g[c] :: d in g)
    && (forall c, d | c in g && d in g[c] :: c != d && Linked(owners, pairs, c, d))
    && (forall m, t | (m, t) in pairs && m in owners && t in owners && owners[m] != owners[t] ::
          owners[m] in g && owners[t] in g[owners[m]])
  }

  ghost predicate Linked(owners: map<Module, Capability>, pairs: set<(Module, Module)>, c: Capability, d: Capability) {
    exists m, t :: (m, t) in pairs && Links(owners, m, t, c, d)
  }

  method AddImport(owners: map<Module, Capability>, ghost done: set<Module>, ghost pairs: set<(Module, Module)>,
                   m: Module, t: Module, g: Graph) returns (g': Graph)
    requires GraphOf(owners, done, pairs, g) && m in owners && owners[m] in g
    ensures GraphOf(owners, done, pairs + {(m, t)}, g') && owners[m] in g'
  {
    g' := g;
    var source := owners[m];
    if t in owners && owners[t] != source {
      var target := owners[t];
      g' := g'[source := g'[source] + {target}];
      if target !in g' {
        g' := g'[target := {}];
      }
      assert Links(owners, m, t, source, target);
    }
    forall c, d | c in g' && d in g'[c] ensures Linked(owners, pairs + {(m, t)}, c, d) {
      if c in g && d in g[c] {
        var m', t' :| (m', t') in pairs && Links(owners, m', t', c, d);
        assert (m', t') in pairs + {(m, t)};
      } else {
        assert (m, t) in pairs + {(m, t)};
      }
    }
  }

  method AddModule(imports: map<Module, set<Module>>, owners: map<Module, Capability>, ghost done: set<Module>,
                   ghost pairs: set<(Module, Module)>, m: Module, g: Graph) returns (g': Graph)
    requires m in imports && GraphOf(owners, done, pairs, g)
    ensures GraphOf(owners, done + {m}, pairs + (set t | t in imports[m] :: (m, t)), g')
  {
    g' := g;
    if m !in owners {
      return;
    }
    if owners[m] !in g' {
      g' := g'[owners[m] := {}];
    }
    var rest := imports[m];
    ghost var added := {};
    while rest != {}
      invariant rest <= imports[m] && owners[m] in g'
      invariant added == set t | t in imports[m] - rest :: (m, t)
      invariant GraphOf(owners, done + {m}, pairs + added, g')
      decreases rest
    {
      var t :| t in rest;
      g' := AddImport(owners, done + {m}, pairs + added, m, t, g');
      assert pairs + added + {(m, t)} == pairs + (added + {(m, t)});
      added, rest := added + {(m, t)}, rest - {t};
    }
  }

  /** The graph whose nodes are the owning capabilities and whose edges are their dependencies. */
  ghost function DependencyGraph(imports: map<Module, set<Module>>, owners: map<Module, Capability>): Graph {
    map c | c in owners.Values :: set d | d in owners.Values && DependsOn(imports, owners, c, d)
  }

  /** The dependency graph between capabilities (254-267). */
  method CapabilityGraph(imports: map<Module, set<Module>>, owners: map<Module, Capability>) returns (g: Graph)
    requires owners.Keys <= imports.Keys
    ensures g == DependencyGraph(imports, owners)
  {
    g := map[];
    var rest := imports.Keys;
    ghost var pairs: set<(Module, Module)> := {};
    while rest != {}
      invariant rest <= imports.Keys && GraphOf(owners, imports.Keys - rest, pairs, g)
      invariant forall m, t :: (m, t) in pairs <==> m in imports && m !in rest && t in imports[m]
      decreases rest
    {
      var m :| m in rest;
      g := AddModule(imports, owners, imports.Keys - rest, pairs, m, g);
      assert imports.Keys - rest + {m} == imports.Keys - (rest - {m});
      pairs, rest := pairs + (set t | t in imports[m] :: (m, t)), rest - {m};
    }
    forall c | c in owners.Values ensures c in g {
      var m :| m in owners && owners[m] == c;
    }
    forall c, d | c in g && d in g ensures d in g[c] <==> DependsOn(imports, owners, c, d) {
      if DependsOn(imports, owners, c, d) {
        var m, t :| m in imports && t in imports[m] && Links(owners, m, t, c, d);
        assert (m, t) in pairs;
      }
    }
    forall c | c in g ensures g[c] == DependencyGraph(imports, owners)[c] {
    }
  }

  method CapabilityCycles(imports: map<Module, set<Module>>, capabilityFor: Module -> Option<Capability>)
    returns (owners: map<Module, Capability>, cycles: seq<seq<Capability>>)
    ensures owners.Keys == set m | m in imports && capabilityFor(m).Some?
    ensures forall m | m in owners :: owners[m] == capabilityFor(m).value
    ensures Tarjan.IsReport(DependencyGraph(imports, owners), cycles)
    ensures cycles == [] <==> exists order :: CapabilitiesAreLayered(imports, owners, order)
  {
    owners := Owners(imports, capabilityFor);
    var graph := CapabilityGraph(imports, owners);
    cycles := Tarjan.StronglyConnectedComponents(graph);
    forall c | c in graph ensures c !in graph[c] {
      assert !DependsOn(imports, owners, c, c);
    }
    NoCycleReportedIffAcyclic(graph, cycles);
    forall order ensures TopologicalOrder(graph, order) <==> CapabilitiesAreLayered(imports, owners, order) {
      if Elements(order) == owners.Values {
        forall i, j | 0 <= i < |order| && 0 <= j < |order|
          ensures order[j] in Successors(graph, order[i]) <==> DependsOn(imports, owners, order[i], order[j])
        {
          assert order[i] in Elements(order) && order[j] in Elements(order);
        }
      }
    }
  }
}
