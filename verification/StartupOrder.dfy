/**
 * From a configuration to a start order: NewGraphFromConfig (internal/deps/graph.go), the
 * dependency half of config loading (internal/config) and getStartupOrder / getShutdownOrder
 * (internal/process/manager_lifecycle.go).
 */
module StartupOrder {
  import opened Sequences
  import opened DependencyGraph
  import ConfigCycles
  import Graph

  /** The parts of a process definition the manager decides on; `settings` stands for all the rest. */
  datatype Process = Process(
    enabled: bool,
    scheduled: bool,
    startsRunning: bool,
    dependsOn: seq<string>,
    settings: string)

  type Processes = map<string, Process>

  /** The depends_on lists as written. */
  function RawEdges(c: Processes): Edges {
    map n | n in c :: c[n].dependsOn
  }

  predicate IsEnabled(c: Processes, n: string) {
    n in c && c[n].enabled
  }

  predicate IsDisabled(c: Processes, n: string) {
    n in c && !c[n].enabled
  }

  /** `deps` without entries that name a disabled process and without repetitions. */
  function KeptDeps(c: Processes, deps: seq<string>): seq<string> {
    if deps == [] then []
    else
      var front, dep := KeptDeps(c, deps[..|deps| - 1]), deps[|deps| - 1];
      if IsDisabled(c, dep) || dep in front then front else front + [dep]
  }

  /** The graph the manager sorts: enabled processes only. */
  function StartGraph(c: Processes): Edges {
    map n | n in c && c[n].enabled :: KeptDeps(c, c[n].dependsOn)
  }

  ghost predicate StartOrderExists(c: Processes) {
    AllPresent(StartGraph(c)) && !Cyclic(StartGraph(c))
  }

  /** The one start order the manager uses: the alphabetically least. */
  ghost function StartOrder(c: Processes): seq<string> {
    if exists o :: IsLeastTopological(StartGraph(c), o) then var o :| IsLeastTopological(StartGraph(c), o); o else []
  }

  lemma StartOrderIs(c: Processes, o: seq<string>)
    requires IsLeastTopological(StartGraph(c), o)
    ensures o == StartOrder(c)
  {
    LeastOrderIsUnique(StartGraph(c), o, StartOrder(c));
  }

  lemma {:induction false} KeptDepsMembers(c: Processes, deps: seq<string>)
    ensures Distinct(KeptDeps(c, deps))
    ensures forall d :: d in KeptDeps(c, deps) <==> d in deps && !IsDisabled(c, d)
  {
    if deps != [] {
      KeptDepsMembers(c, deps[..|deps| - 1]);
      assert deps == deps[..|deps| - 1] + [deps[|deps| - 1]];
    }
  }

  lemma StartGraphFacts(c: Processes)
    ensures StartGraph(c).Keys == set n | n in c && c[n].enabled
    ensures NoRepeats(StartGraph(c))
  {
    forall n | n in StartGraph(c) ensures Distinct(StartGraph(c)[n]) {
      KeptDepsMembers(c, c[n].dependsOn);
    }
  }

  ghost predicate StartsAfter(c: Processes, n: string, d: string) {
    IsEnabled(c, n) && d in c[n].dependsOn && !IsDisabled(c, d)
  }

  lemma StartGraphEdge(c: Processes, n: string, d: string)
    ensures d in Deps(StartGraph(c), n) <==> StartsAfter(c, n, d)
  {
    if IsEnabled(c, n) {
      KeptDepsMembers(c, c[n].dependsOn);
    }
  }

  ghost predicate EnabledDepsDefined(c: Processes) {
    forall n, d :: IsEnabled(c, n) && d in c[n].dependsOn ==> d in c
  }

  /** A cycle of the depends_on lists that runs through enabled processes only. */
  ghost predicate IsEnabledCycle(c: Processes, cycle: seq<string>) {
    IsCycle(RawEdges(c), cycle) && forall x :: x in cycle ==> IsEnabled(c, x)
  }

  /** A start order exists exactly when no enabled process names an undefined one or is on an enabled cycle. */
  lemma StartOrderCondition(c: Processes)
    ensures StartOrderExists(c) <==> EnabledDepsDefined(c) && forall p :: !IsEnabledCycle(c, p)
  {
    PresentCondition(c);
    forall p | IsEnabledCycle(c, p) ensures Cyclic(StartGraph(c)) {
      EnabledCycleKept(c, p);
    }
    if EnabledDepsDefined(c) && Cyclic(StartGraph(c)) {
      var p :| IsCycle(StartGraph(c), p);
      KeptCycleEnabled(c, p);
    }
  }

  lemma PresentCondition(c: Processes)
    ensures AllPresent(StartGraph(c)) <==> EnabledDepsDefined(c)
  {
    StartGraphFacts(c);
    hide StartGraph;
    var g := StartGraph(c);
    if AllPresent(g) {
      forall n, d | IsEnabled(c, n) && d in c[n].dependsOn ensures d in c {
        StartGraphEdge(c, n, d);
        assert n in g.Keys;
        if !IsDisabled(c, d) {
          assert d in g[n];
          assert d in g.Keys;
        }
      }
    }
    if EnabledDepsDefined(c) {
      forall n, d | n in g && d in g[n] ensures d in g {
        StartGraphEdge(c, n, d);
      }
    }
  }

  lemma EnabledCycleKept(c: Processes, p: seq<string>)
    requires IsEnabledCycle(c, p)
    ensures IsCycle(StartGraph(c), p)
  {
    forall i | 0 < i < |p| ensures EdgeInto(StartGraph(c), p, i) {
      assert EdgeInto(RawEdges(c), p, i);
      assert p[i - 1] in p && p[i] in p;
      StartGraphEdge(c, p[i - 1], p[i]);
    }
  }

  lemma KeptCycleEnabled(c: Processes, p: seq<string>)
    requires IsCycle(StartGraph(c), p)
    ensures IsEnabledCycle(c, p)
  {
    CycleNodesAreKeys(StartGraph(c), p);
    forall i | 0 < i < |p| ensures EdgeInto(RawEdges(c), p, i) {
      assert EdgeInto(StartGraph(c), p, i);
      StartGraphEdge(c, p[i - 1], p[i]);
    }
  }

  lemma CycleNodesAreKeys(g: Edges, p: seq<string>)
    requires IsCycle(g, p)
    ensures forall x :: x in p ==> x in g
  {
    forall i | 0 <= i < |p| ensures p[i] in g {
      assert EdgeInto(g, p, if i + 1 < |p| then i + 1 else 1);
    }
  }

  /** A configuration that both loading checks accept always has a start order. */
  lemma ValidatedConfigStarts(c: Processes)
    requires AllPresent(RawEdges(c)) && !Cyclic(RawEdges(c))
    ensures StartOrderExists(c)
  {
    StartOrderCondition(c);
    forall n, d | IsEnabled(c, n) && d in c[n].dependsOn ensures d in c {
      assert n in RawEdges(c) && d in RawEdges(c)[n];
      assert d in RawEdges(c);
    }
  }

  /** The two dependency checks a loaded configuration has to pass. */
  method ValidateLoaded(c: Processes) returns (ok: bool)
    ensures ok <==> AllPresent(RawEdges(c)) && !Cyclic(RawEdges(c))
    ensures ok ==> StartOrderExists(c)
  {
    var found := ConfigCycles.CheckCircularDependencies(RawEdges(c));
    ConfigCycles.DefinedNeverNamedTwice(RawEdges(c));
    if found {
      return false;
    }
    var circular, missing := ConfigCycles.ValidateDependencies(RawEdges(c));
    ok := !circular && missing == {};
    if ok {
      ValidatedConfigStarts(c);
    }
  }

  method NewGraphFromConfig(c: Processes) returns (g: Graph.Graph, check: Graph.Check)
    ensures fresh(g) && g.nodes == StartGraph(c)
    ensures check.Rejected? ==> Graph.Explains(g.nodes, check.error)
    ensures check.Accepted? <==> AllPresent(g.nodes) && forall n :: n in g.nodes ==> n !in g.nodes[n]
  {
    g := new Graph.Graph();
    var todo := c.Keys;
    while todo != {}
      invariant fresh(g) && todo <= c.Keys
      invariant g.nodes == map n | n in c && n !in todo && c[n].enabled :: KeptDeps(c, c[n].dependsOn)
    {
      var name :| name in todo;
      todo := todo - {name};
      if c[name].enabled {
        var deps := DropDeps(c, c[name].dependsOn);
        g.AddNode(name, deps);
      }
    }
    check := g.Validate();
  }

  /** The inner loop over one depends_on list. */
  method DropDeps(c: Processes, dependsOn: seq<string>) returns (deps: seq<string>)
    ensures deps == KeptDeps(c, dependsOn)
  {
    deps := [];
    var seen := {};
    for i := 0 to |dependsOn|
      invariant deps == KeptDeps(c, dependsOn[..i])
      invariant seen == Elems(deps)
    {
      var dep := dependsOn[i];
      assert dependsOn[..i + 1][..i] == dependsOn[..i];
      if !(dep in c && !c[dep].enabled) && dep !in seen {
        ElemsSnoc(deps, dep);
        seen := seen + {dep};
        deps := deps + [dep];
      }
    }
    assert dependsOn[..|dependsOn|] == dependsOn;
  }

  /** Succeeds exactly when a start order exists, with the alphabetically least one. */
  method GetStartupOrder(c: Processes) returns (r: Graph.SortResult)
    ensures r.Sorted? <==> StartOrderExists(c)
    ensures r.Sorted? ==> IsLeastTopological(StartGraph(c), r.order) && r.order == StartOrder(c)
    ensures r.Refused? ==> Graph.Explains(StartGraph(c), r.error)
  {
    StartGraphFacts(c);
    var g, check := NewGraphFromConfig(c);
    if check.Rejected? {
      Graph.SelfDependencyIsCycle(StartGraph(c));
      return Graph.Refused(check.error);
    }
    r := g.TopologicalSort();
    if r.Sorted? {
      StartOrderIs(c, r.order);
    }
  }

  lemma ReversedOrder(c: Processes, s: seq<string>)
    requires IsTopological(StartGraph(c), s)
    ensures Distinct(Reverse(s)) && Reverse(Reverse(s)) == s
    ensures forall n :: IsEnabled(c, n) <==> n in Reverse(s)
  {
    hide Reverse, DepsFirst;
    ReverseTwice(s);
    ReverseElems(s);
    ReverseDistinct(s);
    StartGraphFacts(c);
    hide StartGraph;
    forall n ensures IsEnabled(c, n) <==> n in Reverse(s) {
      assert n in Elems(Reverse(s)) <==> n in StartGraph(c).Keys;
    }
  }

  /** The start order backwards, or every configured process in some order when there is none. */
  method GetShutdownOrder(c: Processes) returns (order: seq<string>)
    ensures Distinct(order)
    ensures StartOrderExists(c) ==> IsLeastTopological(StartGraph(c), Reverse(order))
    ensures !StartOrderExists(c) ==> Elems(order) == c.Keys
    ensures forall n :: IsEnabled(c, n) ==> n in order
  {
    hide StartOrderExists, Reverse, StartGraph;
    var startup := GetStartupOrder(c);
    if startup.Refused? {
      order := AllNames(c);
      assert forall n :: n in c ==> n in Elems(order);
    } else {
      order := Reverse(startup.order);
      ReversedOrder(c, startup.order);
    }
  }

  method AllNames(c: Processes) returns (names: seq<string>)
    ensures Distinct(names) && Elems(names) == c.Keys
  {
    names := [];
    var todo := c.Keys;
    while todo != {}
      invariant Distinct(names) && todo <= c.Keys && Elems(names) == c.Keys - todo
    {
      var name :| name in todo;
      ElemsSnoc(names, name);
      assert name !in Elems(names);
      todo := todo - {name};
      names := names + [name];
    }
  }
}
