/**
 * The two dependency checks of config loading: checkCircularDependencies with hasCycle
 * (internal/config/config.go) and validateDependencies with detectCycle
 * (internal/config/validation.go). Both walk the raw depends_on lists in the same way, so one walk
 * stands for both.
 */
module ConfigCycles {
  import opened Sequences
  import opened DependencyGraph
  import Graph

  /** A place where a name is listed: entry `1` of the dependencies of process `0`. */
  type Occurrence = (string, nat)

  ghost predicate NamedAt(g: Edges, at: Occurrence, u: string) {
    at.0 in g && at.1 < |g[at.0]| && g[at.0][at.1] == u
  }

  /** Some undefined process is listed as a dependency in two different places. */
  ghost predicate UndefinedNamedTwice(g: Edges) {
    exists u, a, b :: u !in g && a != b && NamedAt(g, a, u) && NamedAt(g, b, u)
  }

  /** `via` records the only place that lists each undefined dependency of `n`. */
  ghost predicate Accounted(g: Edges, via: map<string, Occurrence>, n: string) {
    n in g ==> forall i {:trigger AccountedAt(g, via, n, i)} :: 0 <= i < |g[n]| ==> AccountedAt(g, via, n, i)
  }

  ghost predicate AccountedAt(g: Edges, via: map<string, Occurrence>, n: string, i: int)
    requires n in g && 0 <= i < |g[n]|
  {
    g[n][i] !in g ==> g[n][i] in via && via[g[n][i]] == (n, i)
  }

  ghost predicate AllAccounted(g: Edges, via: map<string, Occurrence>, finished: seq<string>) {
    forall n {:trigger Accounted(g, via, n)} :: n in finished ==> Accounted(g, via, n)
  }

  ghost predicate ViaSound(g: Edges, visited: set<string>, via: map<string, Occurrence>) {
    forall u {:trigger ViaAt(g, visited, via, u)} :: u in via ==> ViaAt(g, visited, via, u)
  }

  ghost predicate ViaAt(g: Edges, visited: set<string>, via: map<string, Occurrence>, u: string)
    requires u in via
  {
    u !in g && NamedAt(g, via[u], u) && via[u].0 in visited
  }

  /**
   * What the walk keeps. An undefined name counts as finished, but unlike a finished process it
   * stays on `recStack` for good.
   */
  ghost predicate WalkInvariant(g: Edges, all: set<string>, visited: set<string>, recStack: set<string>,
                                finished: seq<string>, via: map<string, Occurrence>, path: seq<string>)
  {
    && visited == Elems(finished) + Elems(path)
    && visited <= all
    && recStack == Elems(path) + via.Keys
    && Elems(path) <= g.Keys
    && via.Keys == Elems(finished) - g.Keys
    && Distinct(path)
    && DepsFirst(g, finished)
    && IsPath(g, path)
    && ViaSound(g, visited, via)
    && AllAccounted(g, via, finished)
  }

  /** What a walk may add: only new places, none of them in a process met before. */
  ghost predicate Extends(visited: set<string>, via: map<string, Occurrence>, via': map<string, Occurrence>) {
    && via.Keys <= via'.Keys
    && (forall u {:trigger via'[u]} :: u in via ==> via'[u] == via[u])
    && forall u {:trigger via'[u]} :: u in via' && u !in via ==> via'[u].0 !in visited
  }

  lemma Push(g: Edges, all: set<string>, visited: set<string>, recStack: set<string>,
             finished: seq<string>, via: map<string, Occurrence>, path: seq<string>, node: string)
    requires WalkInvariant(g, all, visited, recStack, finished, via, path)
    requires node in all && node in g && node !in visited && IsPath(g, path + [node])
    ensures WalkInvariant(g, all, visited + {node}, recStack + {node}, finished, via, path + [node])
    ensures Progress(g, node, 0, finished, via)
  {
    ElemsSnoc(path, node);
    assert node !in Elems(path);
    forall u | u in via ensures ViaAt(g, visited + {node}, via, u) && via[u].0 != node {
      assert ViaAt(g, visited, via, u);
    }
  }

  lemma Pop(g: Edges, all: set<string>, visited: set<string>, recStack: set<string>,
            finished: seq<string>, via: map<string, Occurrence>, path: seq<string>, node: string)
    requires WalkInvariant(g, all, visited, recStack, finished, via, path + [node])
    requires node in g && Progress(g, node, |g[node]|, finished, via)
    ensures WalkInvariant(g, all, visited, recStack - {node}, finished + [node], via, path)
  {
    var stack := path + [node];
    ElemsSnoc(path, node);
    ElemsSnoc(finished, node);
    DepsFirstSnoc(g, finished, node);
    assert forall i :: 0 <= i < |path| ==> path[i] == stack[i] != stack[|path|];
    forall i | 0 < i < |path| ensures EdgeInto(g, path, i) {
      assert EdgeInto(g, stack, i);
    }
    assert node in Elems(stack) && node in g && node !in path && node !in via;
    forall n | n in finished + [node] ensures Accounted(g, via, n) {
      assert n in finished ==> Accounted(g, via, n);
    }
  }

  lemma MeetUndefined(g: Edges, all: set<string>, visited: set<string>, recStack: set<string>,
                      finished: seq<string>, via: map<string, Occurrence>, path: seq<string>,
                      u: string, at: Occurrence)
    requires WalkInvariant(g, all, visited, recStack, finished, via, path)
    requires u in all && u !in g && u !in visited && NamedAt(g, at, u) && at.0 in visited
    ensures WalkInvariant(g, all, visited + {u}, recStack + {u}, finished + [u], via[u := at], path)
  {
    ElemsSnoc(finished, u);
    DepsFirstSnoc(g, finished, u);
    assert u !in via && u !in Elems(path);
    var via' := via[u := at];
    forall x | x in via' ensures ViaAt(g, visited + {u}, via', x) {
      assert x != u ==> ViaAt(g, visited, via, x);
    }
    forall n | n in finished + [u] ensures Accounted(g, via', n) {
      if n in g {
        assert n in finished && Accounted(g, via, n);
        forall i | 0 <= i < |g[n]| ensures AccountedAt(g, via', n, i) {
          assert AccountedAt(g, via, n, i);
        }
      }
    }
  }

  class DependencyWalk {
    var visited: set<string>
    var recStack: set<string>
    ghost var finished: seq<string>
    ghost var via: map<string, Occurrence>

    ghost predicate Valid(g: Edges, all: set<string>, path: seq<string>)
      reads this
    {
      WalkInvariant(g, all, visited, recStack, finished, via, path)
    }

    constructor ()
      ensures visited == {} && recStack == {} && finished == [] && via == map[]
    {
      visited, recStack, finished, via := {}, {}, [], map[];
    }

    /** hasCycle / detectCycle on `name`, reached through the dependency entry `at`. */
    method Visit(g: Edges, name: string, ghost at: Occurrence, ghost all: set<string>, ghost path: seq<string>)
      returns (found: bool)
      requires Valid(g, all, path) && Graph.HoldsAllDeps(g, all) && name in all && name !in visited
      requires IsPath(g, path + [name])
      requires name !in g ==> NamedAt(g, at, name) && at.0 in visited
      modifies this
      ensures found ==> Cyclic(g) || UndefinedNamedTwice(g)
      ensures !found ==> Valid(g, all, path) && old(visited) <= visited
      ensures !found ==> Elems(old(finished)) + {name} <= Elems(finished)
      ensures !found ==> VisitEffect(g, old(visited), old(via), via, name, at)
      decreases |all - visited|, 0
    {
      hide WalkInvariant, Extends, Progress, Elems, IsPath, Cyclic, UndefinedNamedTwice, Graph.HoldsAllDeps;
      Graph.FewerLeft(all - (visited + {name}), all - visited, name);
      if name !in g {
        MeetUndefined(g, all, visited, recStack, finished, via, path, name, at);
        ElemsSnoc(finished, name);
        visited := visited + {name};
        recStack := recStack + {name};
        finished, via := finished + [name], via[name := at];
        return false;
      }
      Push(g, all, visited, recStack, finished, via, path, name);
      assert visited + {name} - {name} == visited;
      visited := visited + {name};
      recStack := recStack + {name};
      found := VisitDeps(g, name, all, path + [name]);
      if !found {
        Pop(g, all, visited, recStack, finished, via, path, name);
        ElemsSnoc(finished, name);
        recStack := recStack - {name};
        finished := finished + [name];
      }
    }

    /** The loop over the dependencies of the process on top of the stack. */
    method VisitDeps(g: Edges, node: string, ghost all: set<string>, ghost stack: seq<string>) returns (found: bool)
      requires Valid(g, all, stack) && Graph.HoldsAllDeps(g, all)
      requires stack != [] && stack[|stack| - 1] == node && node in g
      requires Progress(g, node, 0, finished, via)
      modifies this
      ensures found ==> Cyclic(g) || UndefinedNamedTwice(g)
      ensures !found ==> Valid(g, all, stack) && Progress(g, node, |g[node]|, finished, via)
      ensures !found ==> Grows(old(visited), old(finished), old(via), visited, finished, via, node)
      decreases |all - visited|, 2
    {
      hide WalkInvariant, Progress, Extends, Elems;
      GrowsReflexive(visited, finished, via, node);
      for i := 0 to |g[node]|
        invariant Valid(g, all, stack) && Progress(g, node, i, finished, via)
        invariant Grows(old(visited), old(finished), old(via), visited, finished, via, node)
      {
        Graph.NotMoreLeft(all, old(visited), visited);
        ghost var visited', finished', via' := visited, finished, via;
        found := VisitDep(g, node, i, all, stack);
        if found {
          return;
        }
        GrowsTransitive(old(visited), old(finished), old(via), visited', finished', via',
                        visited, finished, via, node);
      }
      return false;
    }

    /** One dependency: descend, report, or pass over a process already finished. */
    method VisitDep(g: Edges, node: string, i: nat, ghost all: set<string>, ghost stack: seq<string>)
      returns (found: bool)
      requires Valid(g, all, stack) && Graph.HoldsAllDeps(g, all)
      requires stack != [] && stack[|stack| - 1] == node && node in g && i < |g[node]|
      requires Progress(g, node, i, finished, via)
      modifies this
      ensures found ==> Cyclic(g) || UndefinedNamedTwice(g)
      ensures !found ==> Valid(g, all, stack) && Progress(g, node, i + 1, finished, via)
      ensures !found ==> Grows(old(visited), old(finished), old(via), visited, finished, via, node)
      decreases |all - visited|, 1
    {
      var dep := g[node][i];
      assert node in Elems(stack);
      if dep !in visited {
        Graph.PathExtends(g, stack, dep);
        found := Visit(g, dep, (node, i), all, stack);
        if !found {
          ProgressStep(g, node, i, old(visited), old(finished), old(via), finished, via);
        }
      } else if dep in recStack {
        Reported(g, all, visited, recStack, finished, via, stack, node, i);
        return true;
      } else {
        return false;
      }
    }
  }

  /** The first `i` dependencies of `node` are finished and accounted for, and no later one is. */
  ghost predicate Progress(g: Edges, node: string, i: nat, finished: seq<string>, via: map<string, Occurrence>)
    requires node in g && i <= |g[node]|
  {
    && (forall k {:trigger AccountedAt(g, via, node, k)} :: 0 <= k < i ==> AccountedAt(g, via, node, k))
    && (forall u {:trigger via[u]} :: u in via && via[u].0 == node ==> via[u].1 < i)
    && forall k :: 0 <= k < i ==> g[node][k] in Elems(finished)
  }

  /** Names are only added, and places only in processes other than `node` that are new. */
  ghost predicate Grows(visited: set<string>, finished: seq<string>, via: map<string, Occurrence>,
                        visited': set<string>, finished': seq<string>, via': map<string, Occurrence>, node: string)
  {
    visited <= visited' && Elems(finished) <= Elems(finished') && Extends(visited - {node}, via, via')
  }

  ghost predicate VisitEffect(g: Edges, visited: set<string>, via: map<string, Occurrence>,
                              via': map<string, Occurrence>, dep: string, at: Occurrence)
  {
    if dep in g then Extends(visited, via, via') else via' == via[dep := at]
  }

  lemma ProgressStep(g: Edges, node: string, i: nat, visited: set<string>, finished: seq<string>,
                     via: map<string, Occurrence>, finished': seq<string>, via': map<string, Occurrence>)
    requires node in g && i < |g[node]| && Progress(g, node, i, finished, via)
    requires node in visited && g[node][i] !in visited && via.Keys <= visited
    requires VisitEffect(g, visited, via, via', g[node][i], (node, i))
    requires Elems(finished) + {g[node][i]} <= Elems(finished')
    ensures Progress(g, node, i + 1, finished', via') && Extends(visited - {node}, via, via')
  {
    forall k | 0 <= k < i + 1 ensures AccountedAt(g, via', node, k) {
      assert k < i ==> AccountedAt(g, via, node, k);
    }
  }

  lemma GrowsReflexive(visited: set<string>, finished: seq<string>, via: map<string, Occurrence>, node: string)
    ensures Grows(visited, finished, via, visited, finished, via, node)
  {
  }

  lemma GrowsTransitive(visited0: set<string>, finished0: seq<string>, via0: map<string, Occurrence>,
                        visited1: set<string>, finished1: seq<string>, via1: map<string, Occurrence>,
                        visited2: set<string>, finished2: seq<string>, via2: map<string, Occurrence>, node: string)
    requires Grows(visited0, finished0, via0, visited1, finished1, via1, node)
    requires Grows(visited1, finished1, via1, visited2, finished2, via2, node)
    ensures Grows(visited0, finished0, via0, visited2, finished2, via2, node)
  {
    forall u | u in via2 ensures u in via0 ==> via2[u] == via0[u]
                         ensures u !in via0 ==> via2[u].0 !in visited0 - {node}
    {
      assert u in via1 ==> via2[u] == via1[u];
    }
  }

  /** A visited name still on recStack closes a cycle, or is an undefined name listed a second time. */
  lemma Reported(g: Edges, all: set<string>, visited: set<string>, recStack: set<string>,
                 finished: seq<string>, via: map<string, Occurrence>, stack: seq<string>, node: string, i: nat)
    requires WalkInvariant(g, all, visited, recStack, finished, via, stack)
    requires stack != [] && stack[|stack| - 1] == node && node in g && i < |g[node]|
    requires Progress(g, node, i, finished, via) && g[node][i] in recStack
    ensures Cyclic(g) || UndefinedNamedTwice(g)
  {
    var dep := g[node][i];
    if dep in stack {
      var m :| 0 <= m < |stack| && stack[m] == dep;
      Graph.StackCloses(g, stack, m);
      assert IsCycle(g, stack[m..] + [stack[m]]);
    } else {
      assert ViaAt(g, visited, via, dep) && NamedAt(g, (node, i), dep);
    }
  }

  lemma CleanWalk(g: Edges, all: set<string>, visited: set<string>, recStack: set<string>,
                  finished: seq<string>, via: map<string, Occurrence>)
    requires WalkInvariant(g, all, visited, recStack, finished, via, []) && g.Keys <= Elems(finished)
    ensures !Cyclic(g) && !UndefinedNamedTwice(g)
  {
    DepsFirstIsAcyclic(g, finished);
    forall u, a, b | u !in g && NamedAt(g, a, u) && NamedAt(g, b, u) ensures a == b {
      assert a.0 in Elems(finished) && b.0 in Elems(finished);
      assert Accounted(g, via, a.0) && Accounted(g, via, b.0);
      assert AccountedAt(g, via, a.0, a.1) && AccountedAt(g, via, b.0, b.1);
    }
  }

  /**
   * checkCircularDependencies, and the first half of validateDependencies: reports a cycle exactly
   * when there is one or an undefined process is listed in two places.
   */
  method CheckCircularDependencies(g: Edges) returns (found: bool)
    ensures found <==> Cyclic(g) || UndefinedNamedTwice(g)
  {
    var walk := new DependencyWalk();
    ghost var all := Graph.Universe(g);
    var todo := g.Keys;
    while todo != {}
      invariant walk.Valid(g, all, [])
      invariant todo <= g.Keys && g.Keys - todo <= Elems(walk.finished)
    {
      var name :| name in todo;
      todo := todo - {name};
      if name !in walk.visited {
        found := walk.Visit(g, name, (name, 0), all, []);
        if found {
          return;
        }
      }
    }
    CleanWalk(g, all, walk.visited, walk.recStack, walk.finished, walk.via);
    return false;
  }

  /** validateDependencies: no error exactly when all dependencies are defined and there is no cycle. */
  method ValidateDependencies(g: Edges) returns (circular: bool, missing: set<(string, string)>)
    ensures circular <==> Cyclic(g) || UndefinedNamedTwice(g)
    ensures !circular ==> forall n, d :: (n, d) in missing <==> n in g && d in g[n] && d !in g
    ensures !circular && missing == {} <==> AllPresent(g) && !Cyclic(g)
  {
    circular := CheckCircularDependencies(g);
    missing := {};
    DefinedNeverNamedTwice(g);
    if circular {
      return;
    }
    var todo := g.Keys;
    while todo != {}
      invariant todo <= g.Keys
      invariant forall n, d :: (n, d) in missing <==> n in g && n !in todo && d in g[n] && d !in g
    {
      var name :| name in todo;
      todo := todo - {name};
      var deps := g[name];
      for i := 0 to |deps|
        invariant forall n, d :: (n, d) in missing <==>
                    if n == name then d in deps[..i] && d !in g else n in g && n !in todo && d in g[n] && d !in g
      {
        assert deps[..i + 1] == deps[..i] + [deps[i]];
        if deps[i] !in g {
          missing := missing + {(name, deps[i])};
        }
      }
      assert deps[..|deps|] == deps;
    }
    if missing == {} {
      forall n, d | n in g && d in g[n] ensures d in g {
        assert (n, d) !in missing;
      }
    } else {
      var x :| x in missing;
      assert x == (x.0, x.1);
    }
  }

  lemma DefinedNeverNamedTwice(g: Edges)
    ensures AllPresent(g) ==> !UndefinedNamedTwice(g)
  {
  }

  /** Two processes that share one misspelt dependency are reported as circular without any cycle. */
  lemma FalseAlarm()
    ensures var g := map["web" := ["typo"], "worker" := ["typo"]];
            !Cyclic(g) && UndefinedNamedTwice(g)
  {
    var g := map["web" := ["typo"], "worker" := ["typo"]];
    var o := ["typo", "web", "worker"];
    assert DepsBefore(g, o, 0) && DepsBefore(g, o, 1) && DepsBefore(g, o, 2);
    assert DepsFirst(g, o);
    assert o[1] == "web" && o[2] == "worker";
    DepsFirstIsAcyclic(g, o);
    assert NamedAt(g, ("web", 0), "typo") && NamedAt(g, ("worker", 0), "typo");
  }
}
