/** The Graph object of internal/deps/graph.go: validation, cycle search and topological sort. */
module Graph {
  import opened Names
  import opened Sequences
  import opened DependencyGraph

  datatype GraphError =
    | MissingDependency(name: string, dep: string)
    | SelfDependency(name: string)
    | CircularDependency(cycle: seq<string>)
    | IncompleteSort

  datatype SortResult = Sorted(order: seq<string>) | Refused(error: GraphError)

  datatype Check = Accepted | Rejected(error: GraphError)

  /** The error names a real defect of the graph. */
  ghost predicate Explains(g: Edges, error: GraphError) {
    match error
    case MissingDependency(n, d) => n in g && d in g[n] && d !in g
    case SelfDependency(n) => n in g && n in g[n]
    case CircularDependency(cycle) => IsSimpleCycle(g, cycle)
    case IncompleteSort => !NoRepeats(g)
  }

  /** All names the depth-first search can meet: the nodes and whatever they depend on. */
  ghost function Universe(g: Edges): set<string> {
    g.Keys + set n, d | n in g && d in g[n] :: d
  }

  ghost predicate HoldsAllDeps(g: Edges, all: set<string>) {
    forall n, d :: d in Deps(g, n) ==> d in all
  }

  ghost predicate ParentsLeadUp(parent: map<string, string>, path: seq<string>) {
    forall i :: 0 < i < |path| ==> ParentAt(parent, path, i)
  }

  ghost predicate ParentAt(parent: map<string, string>, path: seq<string>, i: int)
    requires 0 < i < |path|
  {
    path[i] in parent && parent[path[i]] == path[i - 1]
  }

  /** What the search keeps: each visited name is on the stack `path` or finished after its dependencies. */
  ghost predicate SearchInvariant(g: Edges, all: set<string>, visited: set<string>, recStack: set<string>,
                                  parent: map<string, string>, finished: seq<string>, path: seq<string>)
  {
    && visited == Elems(finished) + Elems(path)
    && visited <= all
    && recStack == Elems(path)
    && Distinct(path)
    && DepsFirst(g, finished)
    && IsPath(g, path)
    && ParentsLeadUp(parent, path)
  }

  lemma PushKeepsInvariant(g: Edges, all: set<string>, visited: set<string>, recStack: set<string>,
                           parent: map<string, string>, finished: seq<string>, path: seq<string>, node: string)
    requires SearchInvariant(g, all, visited, recStack, parent, finished, path)
    requires node in all && node !in visited
    requires IsPath(g, path + [node]) && ParentsLeadUp(parent, path + [node])
    ensures SearchInvariant(g, all, visited + {node}, recStack + {node}, parent, finished, path + [node])
  {
    ElemsSnoc(path, node);
    assert node !in Elems(path);
  }

  lemma PopKeepsInvariant(g: Edges, all: set<string>, visited: set<string>, recStack: set<string>,
                          parent: map<string, string>, finished: seq<string>, path: seq<string>, node: string)
    requires SearchInvariant(g, all, visited, recStack, parent, finished, path + [node])
    requires forall d :: d in Deps(g, node) ==> d in finished
    ensures SearchInvariant(g, all, visited, recStack - {node}, parent, finished + [node], path)
  {
    var stack := path + [node];
    ElemsSnoc(path, node);
    ElemsSnoc(finished, node);
    assert node !in path by {
      assert forall i :: 0 <= i < |path| ==> path[i] == stack[i] != stack[|path|];
    }
    assert forall i :: 0 <= i < |path| ==> path[i] == stack[i];
    forall i | 0 < i < |path| ensures EdgeInto(g, path, i) && ParentAt(parent, path, i) {
      assert EdgeInto(g, stack, i) && ParentAt(parent, stack, i);
    }
    DepsFirstSnoc(g, finished, node);
  }

  /** The part of the stack from `dep` on, closed by the edge back to `dep`, is the cycle shown. */
  lemma StackCloses(g: Edges, stack: seq<string>, m: nat)
    requires m < |stack| && IsPath(g, stack) && Distinct(stack) && stack[m] in Deps(g, stack[|stack| - 1])
    ensures IsSimpleCycle(g, stack[m..] + [stack[m]])
  {
    var c := stack[m..] + [stack[m]];
    forall i | 0 < i < |c| ensures EdgeInto(g, c, i) {
      if i < |c| - 1 {
        assert EdgeInto(g, stack, m + i);
      }
    }
    assert c[1..] == stack[m + 1..] + [stack[m]];
  }

  lemma ParentsExtend(parent: map<string, string>, stack: seq<string>, dep: string)
    requires ParentsLeadUp(parent, stack) && stack != [] && dep !in stack
    ensures ParentsLeadUp(parent[dep := stack[|stack| - 1]], stack + [dep])
    ensures ParentsLeadUp(parent[dep := stack[|stack| - 1]], stack)
  {
    var parent', longer := parent[dep := stack[|stack| - 1]], stack + [dep];
    forall i | 0 < i < |longer|
      ensures ParentAt(parent', longer, i) && (i < |stack| ==> ParentAt(parent', stack, i))
    {
      if i < |stack| {
        assert ParentAt(parent, stack, i);
      }
    }
  }

  lemma PathExtends(g: Edges, stack: seq<string>, dep: string)
    requires IsPath(g, stack) && stack != [] && dep in Deps(g, stack[|stack| - 1])
    ensures IsPath(g, stack + [dep])
  {
    var longer := stack + [dep];
    forall i | 0 < i < |longer| ensures EdgeInto(g, longer, i) {
      if i < |stack| {
        assert EdgeInto(g, stack, i);
      }
    }
  }

  /**
   * The three maps that HasCycle shares with its recursive calls. `finished` records the order in
   * which nodes left the recursion; `path` arguments below are the nodes still on the stack.
   */
  class CycleSearch {
    var visited: set<string>
    var recStack: set<string>
    var parent: map<string, string>
    ghost var finished: seq<string>

    ghost predicate Valid(g: Edges, all: set<string>, path: seq<string>)
      reads this
    {
      SearchInvariant(g, all, visited, recStack, parent, finished, path)
    }

    constructor ()
      ensures visited == {} && recStack == {} && finished == []
    {
      visited, recStack, parent, finished := {}, {}, map[], [];
    }

    /** hasCycleDFS: finishes `node` with everything it depends on, or reports a cycle. */
    method Visit(g: Edges, node: string, ghost all: set<string>, ghost path: seq<string>)
      returns (found: bool, cycle: seq<string>)
      requires Valid(g, all, path) && HoldsAllDeps(g, all) && node in all && node !in visited
      requires IsPath(g, path + [node]) && ParentsLeadUp(parent, path + [node])
      modifies this
      ensures found ==> IsSimpleCycle(g, cycle)
      ensures !found ==> Valid(g, all, path) && node in finished && Elems(old(finished)) <= Elems(finished)
      decreases |all - visited|, 0
    {
      PushKeepsInvariant(g, all, visited, recStack, parent, finished, path, node);
      FewerLeft(all - (visited + {node}), all - visited, node);
      visited := visited + {node};
      recStack := recStack + {node};
      found, cycle := VisitDeps(g, node, all, path + [node]);
      if !found {
        PopKeepsInvariant(g, all, visited, recStack, parent, finished, path, node);
        ElemsSnoc(finished, node);
        recStack := recStack - {node};
        finished := finished + [node];
      }
    }

    /** The loop of hasCycleDFS over the dependencies of the node on top of the stack. */
    method VisitDeps(g: Edges, node: string, ghost all: set<string>, ghost stack: seq<string>)
      returns (found: bool, cycle: seq<string>)
      requires Valid(g, all, stack) && HoldsAllDeps(g, all) && stack != [] && stack[|stack| - 1] == node
      modifies this
      ensures found ==> IsSimpleCycle(g, cycle)
      ensures !found ==> Valid(g, all, stack) && Elems(old(finished)) <= Elems(finished)
      ensures !found ==> forall d :: d in Deps(g, node) ==> d in finished
      decreases |all - visited|, 1
    {
      var deps := Deps(g, node);
      for i := 0 to |deps|
        invariant Valid(g, all, stack)
        invariant Elems(old(finished)) <= Elems(finished) && old(visited) <= visited
        invariant forall k :: 0 <= k < i ==> deps[k] in Elems(finished)
      {
        var dep := deps[i];
        if dep !in visited {
          ParentsExtend(parent, stack, dep);
          PathExtends(g, stack, dep);
          NotMoreLeft(all, old(visited), visited);
          parent := parent[dep := node];
          found, cycle := Visit(g, dep, all, stack);
          if found {
            return;
          }
        } else if dep in recStack {
          cycle := Reconstruct(node, dep, stack);
          StackCloses(g, stack, |stack| + 1 - |cycle|);
          return true, cycle;
        }
      }
      return false, [];
    }

    /** Walks the parent links from `node` up to `dep`: the stack from `dep` on, and `dep` again. */
    method Reconstruct(node: string, dep: string, ghost stack: seq<string>) returns (cycle: seq<string>)
      requires ParentsLeadUp(parent, stack) && Distinct(stack) && dep in stack
      requires stack[|stack| - 1] == node
      ensures 2 <= |cycle| <= |stack| + 1 && stack[|stack| + 1 - |cycle|] == dep
      ensures cycle == stack[|stack| + 1 - |cycle|..] + [dep]
    {
      ghost var m :| 0 <= m < |stack| && stack[m] == dep;
      ghost var k := |stack| - 1;
      cycle := [dep];
      var current := node;
      while current != dep
        invariant m <= k < |stack| && current == stack[k]
        invariant cycle == stack[k + 1..] + [dep]
        decreases k
      {
        assert stack[k..] == [current] + stack[k + 1..];
        assert ParentAt(parent, stack, k);
        cycle := [current] + cycle;
        current := parent[current];
        k := k - 1;
      }
      assert stack[k..] == [current] + stack[k + 1..];
      cycle := [dep] + cycle;
    }
  }

  lemma NotMoreLeft(all: set<string>, a: set<string>, b: set<string>)
    requires a <= b
    ensures |all - b| <= |all - a|
  {
    assert all - a == (all - b) + (all * (b - a));
  }

  lemma FewerLeft(a: set<string>, b: set<string>, x: string)
    requires x in b && a <= b - {x}
    ensures |a| < |b|
  {
    var rest := b - {x};
    assert |rest| == |b| - 1;
    assert rest == a + (rest - a);
  }

  /** sortAlphabetically: in-place insertion sort. */
  method SortAlphabetically(a: array<string>)
    modifies a
    ensures Ascending(a[..]) && multiset(a[..]) == multiset(old(a[..]))
  {
    var i := 1;
    while i < a.Length
      invariant i <= a.Length ==> Ascending(a[..i])
      invariant a.Length < i ==> a.Length == 0
      invariant multiset(a[..]) == multiset(old(a[..]))
    {
      InsertLeftwards(a, i);
      i := i + 1;
    }
    assert i <= a.Length ==> a[..] == a[..i];
  }

  /** Alphabetical, repetitions allowed. */
  ghost predicate Ascending(s: seq<string>) {
    forall i, j :: 0 <= i < j < |s| ==> !Less(s[j], s[i])
  }

  /** `s` with entries `p` to `i - 1` copied one place to the right, over entry `i`. */
  ghost function Shifted(s: seq<string>, i: nat, p: nat): (r: seq<string>)
    requires p <= i < |s|
    ensures |r| == |s|
  {
    seq(|s|, k requires 0 <= k < |s| => if p < k <= i then s[k - 1] else s[k])
  }

  /** Moving `was[i]` left to position `p`, past larger entries only, extends the sorted front by one. */
  lemma RotationSorts(was: seq<string>, i: nat, p: nat)
    requires p <= i < |was| && Ascending(was[..i])
    requires p > 0 ==> !Less(was[i], was[p - 1])
    requires forall k :: p <= k < i ==> Less(was[i], was[k])
    ensures Ascending(Shifted(was, i, p)[p := was[i]][..i + 1])
    ensures multiset(Shifted(was, i, p)[p := was[i]]) == multiset(was)
  {
    var key := was[i];
    forall k | 0 <= k < p ensures !Less(key, was[k]) {
      if Less(key, was[k]) {
        assert !Less(was[..i][p - 1], was[..i][k]) || k == p - 1;
        LessTrichotomy(was[k], was[p - 1]);
        if was[k] != was[p - 1] {
          LessTransitive(key, was[k], was[p - 1]);
        }
      }
    }
    forall k | p <= k < i ensures !Less(was[k], key) {
      LessTrichotomy(was[k], key);
    }
    var r := Shifted(was, i, p)[p := key];
    forall x, y | 0 <= x < y <= i ensures !Less(r[y], r[x]) {
      var x', y' := if p < x then x - 1 else x, if p < y then y - 1 else y;
      if x != p && y != p {
        assert !Less(was[..i][y'], was[..i][x']);
      }
    }
    RotationPermutes(was, i, p);
  }

  lemma RotationPermutes(was: seq<string>, i: nat, p: nat)
    requires p <= i < |was|
    ensures multiset(Shifted(was, i, p)[p := was[i]]) == multiset(was)
  {
    assert was == was[..p] + was[p..i] + [was[i]] + was[i + 1..];
    assert Shifted(was, i, p)[p := was[i]] == was[..p] + [was[i]] + was[p..i] + was[i + 1..];
  }

  /** One round of the sort: moves entry `i` left past every larger entry. */
  method InsertLeftwards(a: array<string>, i: nat)
    requires i < a.Length && Ascending(a[..i])
    modifies a
    ensures Ascending(a[..i + 1]) && multiset(a[..]) == multiset(old(a[..]))
  {
    ghost var was := a[..];
    var key := a[i];
    var p := OpenSlot(a, i);
    a[p] := key;
    RotationSorts(was, i, p);
    assert a[..] == Shifted(was, i, p)[p := key];
    assert a[..i + 1] == a[..][..i + 1];
  }

  /** Shifts the larger entries before `i` to the right and returns the position they leave free. */
  method OpenSlot(a: array<string>, i: nat) returns (p: nat)
    requires i < a.Length
    modifies a
    ensures p <= i && a[..] == Shifted(old(a[..]), i, p)
    ensures p > 0 ==> !Less(old(a[i]), old(a[..])[p - 1])
    ensures forall k :: p <= k < i ==> Less(old(a[i]), old(a[..])[k])
  {
    hide Less, Shifted;
    ghost var was := a[..];
    var key := a[i];
    p := i;
    while p > 0 && Less(key, a[p - 1])
      invariant p <= i
      invariant forall k :: 0 <= k <= p || i < k < a.Length ==> a[k] == was[k]
      invariant forall k :: p < k <= i ==> a[k] == was[k - 1]
      invariant forall k :: p <= k < i ==> Less(key, was[k])
    {
      a[p] := a[p - 1];
      p := p - 1;
    }
    ShiftedEntries(was, i, p, a[..]);
  }

  lemma ShiftedEntries(s: seq<string>, i: nat, p: nat, r: seq<string>)
    requires p <= i < |s| == |r|
    requires forall k :: 0 <= k <= p || i < k < |s| ==> r[k] == s[k]
    requires forall k :: p < k <= i ==> r[k] == s[k - 1]
    ensures r == Shifted(s, i, p)
  {
  }

  // ----- Kahn's algorithm

  /** The in-degree the sort keeps for `n` once the nodes in `before` are in the result. */
  ghost function Pending(g: Edges, n: string, before: set<string>): int
    requires n in g
  {
    |g[n]| - |Elems(g[n]) * before|
  }

  /** It reaches zero only for a node whose listed dependencies are all met and never repeat. */
  lemma PendingZero(g: Edges, n: string, before: set<string>)
    requires n in g
    ensures Pending(g, n, before) == 0 <==> Distinct(g[n]) && Elems(g[n]) <= before
  {
    ElemsSize(g[n]);
    SubsetOfSameSize(Elems(g[n]) * before, Elems(g[n]));
  }

  lemma PendingStep(g: Edges, n: string, before: set<string>, node: string)
    requires n in g && node !in before
    ensures Pending(g, n, before + {node}) == Pending(g, n, before) - if node in g[n] then 1 else 0
  {
    var met := Elems(g[n]) * before;
    assert Elems(g[n]) * (before + {node}) == if node in g[n] then met + {node} else met;
  }

  ghost function ReadySet(g: Edges, before: seq<string>): set<string> {
    set n | n in g && Ready(g, before, n)
  }

  /** What holds of the sort's variables between two rounds. */
  ghost predicate KahnInvariant(g: Edges, inDegree: map<string, int>, queue: seq<string>, result: seq<string>) {
    && inDegree.Keys == g.Keys
    && (forall n :: n in g ==> inDegree[n] == Pending(g, n, Elems(result)))
    && Ascending(queue) && Distinct(queue)
    && Elems(queue) == ReadySet(g, result)
    && ResultSoFar(g, result)
  }

  ghost predicate ResultSoFar(g: Edges, result: seq<string>) {
    Distinct(result) && Elems(result) <= g.Keys && DepsFirst(g, result) && Greedy(g, result)
  }

  /** Adding the alphabetically first ready node keeps the result greedy and dependencies-first. */
  lemma AppendReady(g: Edges, result: seq<string>, node: string)
    requires ResultSoFar(g, result) && Ready(g, result, node)
    requires forall n :: Ready(g, result, n) ==> n == node || Less(node, n)
    ensures ResultSoFar(g, result + [node])
  {
    var longer := result + [node];
    ElemsSnoc(result, node);
    DepsFirstSnoc(g, result, node);
    forall i | 0 <= i < |longer| ensures GreedyAt(g, longer, i) {
      if i < |result| {
        assert longer[..i] == result[..i];
        assert GreedyAt(g, result, i);
      } else {
        assert longer[..i] == result;
      }
    }
  }

  /** How readiness changes for `n` when `node` enters the result. */
  lemma ReadyStep(g: Edges, result: seq<string>, node: string, n: string)
    requires ResultSoFar(g, result) && Ready(g, result, node) && n in g
    ensures node !in g[n] ==> (Ready(g, result + [node], n) <==> Ready(g, result, n) && n != node)
    ensures node in g[n] ==> !Ready(g, result, n)
    ensures node in g[n] ==> (Ready(g, result + [node], n) <==> Pending(g, n, Elems(result + [node])) == 0)
  {
    var longer := result + [node];
    PendingZero(g, n, Elems(longer));
    assert forall d :: d in Elems(g[n]) <==> d in g[n];
    assert forall d :: d in Elems(longer) <==> d in longer;
    if node in g[n] {
      assert n != node;
      forall i | 0 <= i < |result| ensures result[i] != n {
        assert DepsBefore(g, result, i) && node !in result[..i];
      }
    }
  }

  /** With nothing ready, an acyclic graph without repeated entries has been listed completely. */
  lemma {:induction false} NothingLeft(g: Edges, o: seq<string>, result: seq<string>, i: nat)
    requires AllPresent(g) && NoRepeats(g) && DepsFirst(g, o) && i <= |o|
    requires forall n :: n in g ==> !Ready(g, result, n)
    ensures forall k :: 0 <= k < i && o[k] in g ==> o[k] in result
  {
    if i > 0 {
      NothingLeft(g, o, result, i - 1);
      var n := o[i - 1];
      if n in g {
        forall d | d in g[n] ensures d in result {
          assert DepsBefore(g, o, i - 1) && d in Deps(g, o[i - 1]);
        }
        assert !Ready(g, result, n);
      }
    }
  }

  class Graph {
    var nodes: Edges

    constructor ()
      ensures nodes == map[]
    {
      nodes := map[];
    }

    method AddNode(name: string, deps: seq<string>)
      modifies this
      ensures nodes == old(nodes)[name := deps]
    {
      nodes := nodes[name := deps];
    }

    /** Accepts exactly the graphs in which every dependency exists and is another node. */
    method Validate() returns (r: Check)
      ensures r.Accepted? <==> AllPresent(nodes) && forall n :: n in nodes ==> n !in nodes[n]
      ensures r.Rejected? ==>
                Explains(nodes, r.error) && (r.error.MissingDependency? || r.error.SelfDependency?)
    {
      var todo := nodes.Keys;
      while todo != {}
        invariant todo <= nodes.Keys
        invariant forall n, d :: n in nodes && n !in todo && d in nodes[n] ==> d in nodes && d != n
      {
        var name :| name in todo;
        todo := todo - {name};
        var deps := nodes[name];
        for i := 0 to |deps|
          invariant forall k :: 0 <= k < i ==> deps[k] in nodes && deps[k] != name
        {
          if deps[i] !in nodes {
            return Rejected(MissingDependency(name, deps[i]));
          }
          if deps[i] == name {
            return Rejected(SelfDependency(name));
          }
        }
      }
      return Accepted;
    }

    /** Finds a cycle exactly when there is one, and shows it as a closed walk with no other repetition. */
    method HasCycle() returns (found: bool, cycle: seq<string>)
      ensures found <==> Cyclic(nodes)
      ensures found ==> IsSimpleCycle(nodes, cycle)
      ensures !found ==> exists o :: DepsFirst(nodes, o) && nodes.Keys <= Elems(o)
    {
      var search := new CycleSearch();
      ghost var all := Universe(nodes);
      var todo := nodes.Keys;
      while todo != {}
        invariant search.Valid(nodes, all, [])
        invariant todo <= nodes.Keys && nodes.Keys - todo <= Elems(search.finished)
      {
        var node :| node in todo;
        todo := todo - {node};
        if node !in search.visited {
          found, cycle := search.Visit(nodes, node, all, []);
          if found {
            return;
          }
        }
      }
      DepsFirstIsAcyclic(nodes, search.finished);
      return false, [];
    }

    /**
     * Succeeds exactly on the acyclic graphs whose dependency lists are complete and free of
     * repetitions, and then returns the alphabetically least start order.
     */
    method TopologicalSort() returns (r: SortResult)
      ensures r.Sorted? <==> AllPresent(nodes) && !Cyclic(nodes) && NoRepeats(nodes)
      ensures r.Sorted? ==> IsLeastTopological(nodes, r.order)
      ensures r.Refused? ==> Explains(nodes, r.error)
    {
      var check := Validate();
      if check.Rejected? {
        SelfDependencyIsCycle(nodes);
        return Refused(check.error);
      }
      var hasCycle, cycle := HasCycle();
      if hasCycle {
        return Refused(CircularDependency(cycle));
      }
      ghost var o :| DepsFirst(nodes, o) && nodes.Keys <= Elems(o);
      var result := Drain(nodes);
      if |result| != |nodes| {
        if NoRepeats(nodes) {
          NothingLeft(nodes, o, result, |o|);
          assert Elems(result) == nodes.Keys;
          ElemsSize(result);
        }
        return Refused(IncompleteSort);
      }
      CompleteResult(nodes, result);
      return Sorted(result);
    }
  }

  lemma SelfDependencyIsCycle(g: Edges)
    ensures (exists n :: n in g && n in g[n]) ==> Cyclic(g)
  {
    if n :| n in g && n in g[n] {
      assert IsCycle(g, [n, n]);
    }
  }

  lemma CompleteResult(g: Edges, result: seq<string>)
    requires ResultSoFar(g, result) && |result| == |g|
    ensures IsLeastTopological(g, result) && NoRepeats(g)
  {
    ElemsSize(result);
    SubsetOfSameSize(Elems(result), g.Keys);
    forall n | n in g ensures Distinct(g[n]) {
      assert n in Elems(result);
      var i :| 0 <= i < |result| && result[i] == n;
      assert GreedyAt(g, result, i);
    }
    forall t | IsTopological(g, t) ensures LexLeq(result, t) {
      GreedyIsLeast(g, result, t);
    }
  }

  /** The queue loop of TopologicalSort: lists nodes greedily until none is ready. */
  method Drain(g: Edges) returns (result: seq<string>)
    ensures ResultSoFar(g, result)
    ensures forall n :: n in g ==> !Ready(g, result, n)
  {
    var inDegree := map n | n in g :: |g[n]|;
    var queue := InitialQueue(g, inDegree);
    result := [];
    while queue != []
      invariant KahnInvariant(g, inDegree, queue, result)
      decreases |g.Keys - Elems(result)|
    {
      var node := queue[0];
      FirstOfQueue(g, queue, result);
      AppendReady(g, result, node);
      ElemsSnoc(result, node);
      FewerLeft(g.Keys - Elems(result + [node]), g.Keys - Elems(result), node);
      inDegree, queue := Release(g, inDegree, queue, result);
      result := result + [node];
    }
  }

  lemma FirstOfQueue(g: Edges, queue: seq<string>, result: seq<string>)
    requires queue != [] && Ascending(queue) && Elems(queue) == ReadySet(g, result)
    ensures Ready(g, result, queue[0])
    ensures forall n :: Ready(g, result, n) ==> n == queue[0] || Less(queue[0], n)
  {
    assert queue[0] in Elems(queue);
    forall n | Ready(g, result, n) ensures n == queue[0] || Less(queue[0], n) {
      assert n in ReadySet(g, result);
      var i :| 0 <= i < |queue| && queue[i] == n;
      LessTrichotomy(queue[0], n);
    }
  }

  /** The nodes without dependencies, sorted. */
  method InitialQueue(g: Edges, inDegree: map<string, int>) returns (queue: seq<string>)
    requires inDegree.Keys == g.Keys && forall n :: n in g ==> inDegree[n] == |g[n]|
    ensures KahnInvariant(g, inDegree, queue, [])
  {
    queue := [];
    var todo := g.Keys;
    while todo != {}
      invariant todo <= g.Keys && Distinct(queue)
      invariant forall n :: n in queue <==> n in g && n !in todo && g[n] == []
    {
      var node :| node in todo;
      todo := todo - {node};
      if inDegree[node] == 0 {
        queue := queue + [node];
      }
    }
    var unsorted := queue;
    queue := SortQueue(queue);
    RearrangedDistinct(unsorted, queue);
    forall n | n in g ensures n in Elems(queue) <==> Ready(g, [], n) {
      assert g[n] != [] ==> g[n][0] in g[n];
    }
    assert Elems(queue) == ReadySet(g, []);
  }

  method SortQueue(queue: seq<string>) returns (r: seq<string>)
    ensures Ascending(r) && multiset(r) == multiset(queue)
  {
    var a := new string[|queue|](i requires 0 <= i < |queue| => queue[i]);
    assert a[..] == queue;
    SortAlphabetically(a);
    r := a[..];
  }

  ghost predicate HalfLowered(g: Edges, todo: set<string>, inDegree: map<string, int>,
                              result: seq<string>, node: string)
  {
    && inDegree.Keys == g.Keys
    && forall n :: n in g ==> inDegree[n] == Pending(g, n, Elems(if n in todo then result else result + [node]))
  }

  /** The queue in the middle of a round: `now` and `next` are ready before and after it. */
  ghost predicate HalfQueued(todo: set<string>, queue: seq<string>, now: set<string>, next: set<string>, node: string) {
    && Ascending(queue) && Distinct(queue)
    && Elems(queue) == (todo * now - {node}) + (next - todo)
  }

  lemma LowerOne(g: Edges, todo: set<string>, inDegree: map<string, int>, result: seq<string>, node: string, n: string)
    requires HalfLowered(g, todo, inDegree, result, node) && n in todo && n in g && node !in result
    ensures HalfLowered(g, todo - {n}, if node in g[n] then inDegree[n := inDegree[n] - 1] else inDegree, result, node)
    ensures node in g[n] ==> inDegree[n] - 1 == Pending(g, n, Elems(result + [node]))
  {
    hide Pending;
    PendingStep(g, n, Elems(result), node);
    ElemsSnoc(result, node);
    hide Elems;
  }

  lemma QueueOne(todo: set<string>, q: set<string>, q': set<string>, now: set<string>, next: set<string>,
                 node: string, n: string)
    requires q == (todo * now - {node}) + (next - todo) && n in todo
    requires n in next <==> n in q'
    requires q' == q || q' == q + {n}
    requires n in now && n != node ==> n in next
    ensures q' == ((todo - {n}) * now - {node}) + (next - (todo - {n}))
  {
  }

  /** One round: takes the first node off the queue and lowers the in-degree of its dependents. */
  method Release(g: Edges, inDegree0: map<string, int>, queue0: seq<string>, ghost result: seq<string>)
    returns (inDegree: map<string, int>, queue: seq<string>)
    requires queue0 != [] && KahnInvariant(g, inDegree0, queue0, result)
    requires ResultSoFar(g, result + [queue0[0]])
    ensures KahnInvariant(g, inDegree, queue, result + [queue0[0]])
  {
    var node := queue0[0];
    inDegree, queue := inDegree0, queue0[1..];
    ghost var now, next := ReadySet(g, result), ReadySet(g, result + [node]);
    RoundStarts(g, queue0, result);
    var todo := g.Keys;
    while todo != {}
      invariant todo <= g.Keys && HalfLowered(g, todo, inDegree, result, node)
      invariant HalfQueued(todo, queue, now, next, node)
    {
      var n :| n in todo;
      inDegree, queue := Satisfy(g, node, n, inDegree, queue, todo, result);
      todo := todo - {n};
    }
  }

  /** What `node` entering the result does to one process `n`, which may depend on it. */
  method Satisfy(g: Edges, node: string, n: string, inDegree0: map<string, int>, queue0: seq<string>,
                 ghost todo: set<string>, ghost result: seq<string>)
    returns (inDegree: map<string, int>, queue: seq<string>)
    requires ResultSoFar(g, result) && Ready(g, result, node) && n in todo && n in g
    requires HalfLowered(g, todo, inDegree0, result, node)
    requires HalfQueued(todo, queue0, ReadySet(g, result), ReadySet(g, result + [node]), node)
    ensures HalfLowered(g, todo - {n}, inDegree, result, node)
    ensures HalfQueued(todo - {n}, queue, ReadySet(g, result), ReadySet(g, result + [node]), node)
  {
    inDegree, queue := inDegree0, queue0;
    LowerOne(g, todo, inDegree, result, node, n);
    ReadySets(g, result, node, n);
    if node in g[n] {
      inDegree := inDegree[n := inDegree[n] - 1];
      if inDegree[n] == 0 {
        assert n !in Elems(queue);
        queue := Enqueue(queue, n);
      }
    }
    QueueOne(todo, Elems(queue0), Elems(queue), ReadySet(g, result), ReadySet(g, result + [node]), node, n);
  }

  lemma ReadySets(g: Edges, result: seq<string>, node: string, n: string)
    requires ResultSoFar(g, result) && Ready(g, result, node) && n in g
    ensures node !in g[n] ==> (n in ReadySet(g, result + [node]) <==> n in ReadySet(g, result) && n != node)
    ensures node in g[n] ==> n !in ReadySet(g, result)
    ensures node in g[n] ==>
              (n in ReadySet(g, result + [node]) <==> Pending(g, n, Elems(result + [node])) == 0)
  {
    ReadyStep(g, result, node, n);
  }

  /** Appends a node and sorts the queue again. */
  method Enqueue(queue: seq<string>, n: string) returns (r: seq<string>)
    requires Distinct(queue) && n !in queue
    ensures Ascending(r) && Distinct(r) && Elems(r) == Elems(queue) + {n}
  {
    r := SortQueue(queue + [n]);
    ElemsSnoc(queue, n);
    RearrangedDistinct(queue + [n], r);
  }

  lemma RoundStarts(g: Edges, queue: seq<string>, result: seq<string>)
    requires queue != [] && Ascending(queue) && Distinct(queue) && Elems(queue) == ReadySet(g, result)
    ensures Ready(g, result, queue[0])
    ensures HalfQueued(g.Keys, queue[1..], ReadySet(g, result), ReadySet(g, result + [queue[0]]), queue[0])
  {
    assert queue[0] in Elems(queue);
    assert queue == [queue[0]] + queue[1..];
    assert Elems(queue[1..]) == Elems(queue) - {queue[0]};
    assert g.Keys * ReadySet(g, result) == ReadySet(g, result);
    assert ReadySet(g, result + [queue[0]]) - g.Keys == {};
  }
}
