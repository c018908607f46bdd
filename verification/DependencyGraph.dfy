/** Dependency graphs of processes (internal/deps/graph.go): what a cycle and a start order are. */
module DependencyGraph {
  import opened Names
  import opened Sequences

  /** Each process with the processes it depends on. */
  type Edges = map<string, seq<string>>

  /** A name with no entry has no dependencies, as a Go map lookup yields nil. */
  function Deps(g: Edges, n: string): seq<string> {
    if n in g then g[n] else []
  }

  /** Follows dependency edges from `p[0]` on. */
  ghost predicate IsPath(g: Edges, p: seq<string>) {
    forall i :: 0 < i < |p| ==> EdgeInto(g, p, i)
  }

  ghost predicate EdgeInto(g: Edges, p: seq<string>, i: int)
    requires 0 < i < |p|
  {
    p[i] in Deps(g, p[i - 1])
  }

  /** A closed walk along dependency edges; a self-dependency is `[n, n]`. */
  ghost predicate IsCycle(g: Edges, c: seq<string>) {
    |c| >= 2 && c[0] == c[|c| - 1] && IsPath(g, c)
  }

  /** A cycle that meets no node twice except for its two ends. */
  ghost predicate IsSimpleCycle(g: Edges, c: seq<string>) {
    IsCycle(g, c) && Distinct(c[1..])
  }

  ghost predicate Cyclic(g: Edges) {
    exists c :: IsCycle(g, c)
  }

  ghost predicate AllPresent(g: Edges) {
    forall n, d :: n in g && d in g[n] ==> d in g
  }

  ghost predicate NoRepeats(g: Edges) {
    forall n :: n in g ==> Distinct(g[n])
  }

  /** Every listed node comes after all of its dependencies. */
  ghost predicate DepsFirst(g: Edges, o: seq<string>) {
    forall i :: 0 <= i < |o| ==> DepsBefore(g, o, i)
  }

  ghost predicate DepsBefore(g: Edges, o: seq<string>, i: int)
    requires 0 <= i < |o|
  {
    forall d :: d in Deps(g, o[i]) ==> d in o[..i]
  }

  /** A start order: a permutation of the nodes with each dependency before its dependents. */
  ghost predicate IsTopological(g: Edges, o: seq<string>) {
    Distinct(o) && Elems(o) == g.Keys && DepsFirst(g, o)
  }

  /** A node may be listed once all of its dependencies are. */
  lemma DepsFirstSnoc(g: Edges, finished: seq<string>, n: string)
    requires DepsFirst(g, finished) && forall d :: d in Deps(g, n) ==> d in finished
    ensures DepsFirst(g, finished + [n])
  {
    var longer := finished + [n];
    forall i | 0 <= i < |longer| ensures DepsBefore(g, longer, i) {
      if i < |finished| {
        assert DepsBefore(g, finished, i) && longer[..i] == finished[..i];
      } else {
        assert longer[..i] == finished;
      }
    }
  }

  lemma {:induction false} PathDescends(g: Edges, o: seq<string>, p: seq<string>, k: nat, i: nat)
    requires DepsFirst(g, o) && IsPath(g, p) && k < |o| && 0 < i < |p| && o[k] == p[0]
    ensures p[i] in o[..k]
  {
    assert EdgeInto(g, p, i);
    if i == 1 {
      assert DepsBefore(g, o, k);
    } else {
      PathDescends(g, o, p, k, i - 1);
      var j :| 0 <= j < k && o[j] == p[i - 1];
      assert DepsBefore(g, o, j);
    }
  }

  lemma {:induction false} NoCycleThrough(g: Edges, o: seq<string>, c: seq<string>, k: nat)
    requires DepsFirst(g, o) && IsCycle(g, c) && k < |o| && o[k] == c[0]
    ensures false
  {
    PathDescends(g, o, c, k, |c| - 1);
    var j :| 0 <= j < k && o[j] == c[0];
    NoCycleThrough(g, o, c, j);
  }

  /** A dependencies-first listing that reaches every node rules out cycles. */
  lemma DepsFirstIsAcyclic(g: Edges, o: seq<string>)
    requires DepsFirst(g, o) && g.Keys <= Elems(o)
    ensures !Cyclic(g)
  {
    if Cyclic(g) {
      var c :| IsCycle(g, c);
      assert EdgeInto(g, c, 1);
      assert c[0] in Elems(o);
      var k :| 0 <= k < |o| && o[k] == c[0];
      NoCycleThrough(g, o, c, k);
    }
  }

  // ----- the alphabetical choice among start orders

  /** `a` is `b` or is alphabetically smaller at the first position where they differ. */
  ghost predicate LexLeq(a: seq<string>, b: seq<string>) {
    a == b || exists k :: FirstSmaller(a, b, k)
  }

  ghost predicate FirstSmaller(a: seq<string>, b: seq<string>, k: int) {
    0 <= k < |a| && k < |b| && a[..k] == b[..k] && Less(a[k], b[k])
  }

  /** The start order that comes first alphabetically. */
  ghost predicate IsLeastTopological(g: Edges, o: seq<string>) {
    IsTopological(g, o) && forall t :: IsTopological(g, t) ==> LexLeq(o, t)
  }

  /** A node that may come next once `before` has been listed. */
  ghost predicate Ready(g: Edges, before: seq<string>, n: string) {
    n in g && n !in before && Distinct(g[n]) && forall d :: d in g[n] ==> d in before
  }

  /** Every entry is the alphabetically first of the nodes ready at that point. */
  ghost predicate Greedy(g: Edges, o: seq<string>) {
    forall k :: 0 <= k < |o| ==> GreedyAt(g, o, k)
  }

  ghost predicate GreedyAt(g: Edges, o: seq<string>, k: int)
    requires 0 <= k < |o|
  {
    Ready(g, o[..k], o[k]) && forall n :: Ready(g, o[..k], n) ==> n == o[k] || Less(o[k], n)
  }

  lemma GreedyIsLeast(g: Edges, o: seq<string>, t: seq<string>)
    requires NoRepeats(g) && Greedy(g, o) && IsTopological(g, o) && IsTopological(g, t)
    ensures LexLeq(o, t)
  {
    ElemsSize(o);
    ElemsSize(t);
    if o != t {
      var k := FirstDifference(o, t);
      assert GreedyAt(g, o, k);
      assert o[..k] == t[..k];
      assert Ready(g, o[..k], t[k]) by {
        assert t[k] in Elems(t);
        assert DepsBefore(g, t, k);
      }
      assert FirstSmaller(o, t, k);
    }
  }

  lemma {:induction false} FirstDifference(a: seq<string>, b: seq<string>) returns (k: nat)
    requires |a| == |b| && a != b
    ensures k < |a| && a[..k] == b[..k] && a[k] != b[k]
  {
    assert a == a[..|a|] && b == b[..|b|];
    k := 0;
    while k < |a| && a[k] == b[k]
      invariant k <= |a| && a[..k] == b[..k]
    {
      k := k + 1;
    }
  }

  /** There is at most one alphabetically least order, so map iteration order cannot show. */
  lemma LeastOrderIsUnique(g: Edges, a: seq<string>, b: seq<string>)
    requires IsLeastTopological(g, a) && IsLeastTopological(g, b)
    ensures a == b
  {
    if a != b {
      assert LexLeq(a, b) && LexLeq(b, a);
      var j :| FirstSmaller(a, b, j);
      var k :| FirstSmaller(b, a, k);
      if j < k {
        assert b[..k][j] == a[..k][j];
        LessTrichotomy(a[j], b[j]);
      } else if k < j {
        assert a[..j][k] == b[..j][k];
        LessTrichotomy(a[k], b[k]);
      } else {
        LessTrichotomy(a[j], b[j]);
      }
    }
  }
}
