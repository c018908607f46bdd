/** Manager.Shutdown (internal/process/manager_lifecycle.go): stopping the processes level by level. */
module Shutdown {
  import opened Sequences
  import opened DependencyGraph
  import opened StartupOrder

  /** What an observer of the supervisors sees: each Stop call beginning and returning. */
  datatype Event = StopBegun(name: string) | StopReturned(name: string, ok: bool)

  /** `other` lists `name` as a dependency; a process does not hold up itself. */
  predicate HoldsUp(c: Processes, other: string, name: string) {
    other != name && other in c && name in c[other].dependsOn
  }

  ghost predicate HeldUp(c: Processes, s: set<string>, name: string) {
    exists other :: other in s && HoldsUp(c, other, name)
  }

  ghost function Unblocked(c: Processes, remaining: set<string>): set<string> {
    set n | n in remaining && !HeldUp(c, remaining, n)
  }

  /** Each name is stopped once, none other is, and every Stop returns as `refuses` says. */
  ghost predicate OnceEach(trace: seq<Event>, names: set<string>, refuses: set<string>) {
    && (forall n :: multiset(trace)[StopBegun(n)] == if n in names then 1 else 0)
    && forall n, ok :: multiset(trace)[StopReturned(n, ok)] ==
                       if n in names && ok == (n !in refuses) then 1 else 0
  }

  /** All occurrences of `a` come before all occurrences of `b`. */
  ghost predicate Before(trace: seq<Event>, a: Event, b: Event) {
    forall i, j :: 0 <= i < |trace| && 0 <= j < |trace| && trace[i] == a && trace[j] == b ==> i < j
  }

  ghost predicate BegunBeforeReturned(trace: seq<Event>) {
    forall n, ok {:trigger StopReturned(n, ok)} :: Before(trace, StopBegun(n), StopReturned(n, ok))
  }

  /** A Stop begins only after the Stop of every process that depends on it has returned. */
  ghost predicate DependentsFirst(c: Processes, trace: seq<Event>, names: set<string>) {
    forall n, other, ok {:trigger HoldsUp(c, other, n), StopReturned(other, ok)} ::
      n in names && other in names && HoldsUp(c, other, n) ==> Before(trace, StopReturned(other, ok), StopBegun(n))
  }

  /** Processes that wait for each other: each is held up by another one of them. */
  ghost predicate Knot(c: Processes, s: set<string>) {
    s != {} && forall n {:trigger HeldUp(c, s, n)} :: n in s ==> HeldUp(c, s, n)
  }

  ghost predicate HasKnot(c: Processes, all: set<string>) {
    exists s :: Knot(c, s) && s <= all
  }

  /** The processes Shutdown goes through. */
  ghost function ToStop(c: Processes, tracked: set<string>): set<string> {
    set n | n in tracked && n in c && (StartOrderExists(c) ==> c[n].enabled)
  }

  // ----- facts about traces

  lemma Appears(trace: seq<Event>, e: Event)
    ensures multiset(trace)[e] > 0 <==> e in trace
  {
  }

  lemma BeforeInConcat(a: seq<Event>, b: seq<Event>, x: Event, y: Event)
    requires (x in b ==> y !in a) && Before(a, x, y) && Before(b, x, y)
    ensures Before(a + b, x, y)
  {
    var t := a + b;
    forall i, j | 0 <= i < |t| && 0 <= j < |t| && t[i] == x && t[j] == y ensures i < j {
      if |a| <= i {
        assert b[i - |a|] == x;
        assert forall k :: 0 <= k < |a| ==> a[k] != y;
      }
    }
  }

  lemma OnceEachConcat(a: seq<Event>, b: seq<Event>, p: set<string>, q: set<string>, refuses: set<string>)
    requires OnceEach(a, p, refuses) && OnceEach(b, q, refuses) && p !! q
    ensures OnceEach(a + b, p + q, refuses)
  {
    assert multiset(a + b) == multiset(a) + multiset(b);
  }

  lemma OnlyItsNames(trace: seq<Event>, names: set<string>, refuses: set<string>)
    requires OnceEach(trace, names, refuses)
    ensures forall e :: e in trace ==> e.name in names
  {
    forall e | e in trace ensures e.name in names {
      Appears(trace, e);
    }
  }

  /** Putting a further level behind the levels already stopped keeps the order among all of them. */
  lemma AddLevel(c: Processes, trace: seq<Event>, done: set<string>, more: seq<Event>, level: set<string>,
                 refuses: set<string>)
    requires OnceEach(trace, done, refuses) && OnceEach(more, level, refuses) && done !! level
    requires BegunBeforeReturned(trace) && BegunBeforeReturned(more) && DependentsFirst(c, trace, done)
    requires forall n, other :: n in done + level && other in level ==> !HoldsUp(c, other, n)
    ensures OnceEach(trace + more, done + level, refuses)
    ensures BegunBeforeReturned(trace + more) && DependentsFirst(c, trace + more, done + level)
  {
    OnceEachConcat(trace, more, done, level, refuses);
    OnlyItsNames(trace, done, refuses);
    OnlyItsNames(more, level, refuses);
    BegunConcat(trace, more, done, level);
    forall n, other, ok | n in done + level && other in done + level && HoldsUp(c, other, n)
      ensures Before(trace + more, StopReturned(other, ok), StopBegun(n))
    {
      var x, y := StopReturned(other, ok), StopBegun(n);
      assert x !in more;
      BeforeInConcat(trace, more, x, y);
    }
  }

  lemma BegunConcat(trace: seq<Event>, more: seq<Event>, done: set<string>, level: set<string>)
    requires done !! level && BegunBeforeReturned(trace) && BegunBeforeReturned(more)
    requires (forall e :: e in trace ==> e.name in done) && forall e :: e in more ==> e.name in level
    ensures BegunBeforeReturned(trace + more)
  {
    forall n, ok ensures Before(trace + more, StopBegun(n), StopReturned(n, ok)) {
      BeforeInConcat(trace, more, StopBegun(n), StopReturned(n, ok));
    }
  }

  // ----- the algorithm

  lemma HeldUpBy(c: Processes, s: set<string>, other: string, name: string)
    ensures HeldUp(c, s + {other}, name) <==> HeldUp(c, s, name) || HoldsUp(c, other, name)
  {
    if HeldUp(c, s, name) {
      var x :| x in s && HoldsUp(c, x, name);
      assert x in s + {other};
    }
    if HoldsUp(c, other, name) {
      assert other in s + {other};
    }
  }

  /** The processes of this round: those no other remaining process depends on. */
  method NextLevel(c: Processes, remaining: set<string>) returns (level: set<string>)
    ensures level == Unblocked(c, remaining) && level <= remaining
  {
    level := {};
    var names := remaining;
    while names != {}
      invariant names <= remaining && level == Unblocked(c, remaining) - names
    {
      var name :| name in names;
      names := names - {name};
      var blocked := false;
      var others := remaining;
      while others != {}
        invariant others <= remaining
        invariant blocked <==> HeldUp(c, remaining - others, name)
      {
        var other :| other in others;
        HeldUpBy(c, remaining - others, other, name);
        assert remaining - (others - {other}) == remaining - others + {other};
        others := others - {other};
        if other != name && !blocked && other in c && name in c[other].dependsOn {
          blocked := true;
        }
      }
      if !blocked {
        level := level + {name};
      }
    }
  }

  /** Stops a level in parallel: the calls may begin and return in any order. */
  method StopLevel(level: set<string>, refuses: set<string>) returns (trace: seq<Event>, errors: nat)
    ensures OnceEach(trace, level, refuses) && BegunBeforeReturned(trace)
    ensures errors == |level * refuses|
  {
    hide InFlight, BegunBeforeReturned, OnceEach;
    NothingBegun(refuses);
    var waiting, running := level, {};
    trace, errors := [], 0;
    assert level - waiting - running == {};
    while waiting != {} || running != {}
      invariant waiting <= level && running <= level - waiting
      invariant InFlight(trace, running, level - waiting - running, refuses) && BegunBeforeReturned(trace)
      invariant errors == |(level - waiting - running) * refuses|
      decreases |waiting| + |waiting| + |running|
    {
      if {
        case waiting != {} =>
          var n :| n in waiting;
          BeginSets(level, waiting, running, n);
          BeginOne(trace, running, level - waiting - running, refuses, n);
          waiting, running := waiting - {n}, running + {n};
          trace := trace + [StopBegun(n)];
        case running != {} =>
          var n :| n in running;
          ReturnSets(level, waiting, running, n, refuses);
          ReturnOne(trace, running, level - waiting - running, refuses, n);
          running := running - {n};
          if n in refuses {
            errors := errors + 1;
          }
          trace := trace + [StopReturned(n, n !in refuses)];
      }
    }
    assert level - waiting - running == level;
    AllReturned(trace, level, refuses);
  }

  lemma BeginSets(level: set<string>, waiting: set<string>, running: set<string>, n: string)
    requires waiting <= level && running <= level - waiting && n in waiting
    ensures running + {n} <= level - (waiting - {n})
    ensures level - (waiting - {n}) - (running + {n}) == level - waiting - running
    ensures |waiting - {n}| == |waiting| - 1 && |running + {n}| == |running| + 1
  {
  }

  lemma ReturnSets(level: set<string>, waiting: set<string>, running: set<string>, n: string, refuses: set<string>)
    requires waiting <= level && running <= level - waiting && n in running
    ensures level - waiting - (running - {n}) == (level - waiting - running) + {n}
    ensures |(level - waiting - (running - {n})) * refuses| ==
            |(level - waiting - running) * refuses| + if n in refuses then 1 else 0
    ensures |running - {n}| == |running| - 1
  {
    var returned := level - waiting - running;
    ErrorCount(returned, {n}, refuses);
    assert {n} * refuses == if n in refuses then {n} else {};
    assert level - waiting - (running - {n}) == returned + {n};
  }

  lemma NothingBegun(refuses: set<string>)
    ensures InFlight([], {}, {}, refuses) && BegunBeforeReturned([])
    ensures OnceEach([], {}, refuses)
  {
  }

  lemma AllReturned(trace: seq<Event>, level: set<string>, refuses: set<string>)
    requires InFlight(trace, {}, level, refuses)
    ensures OnceEach(trace, level, refuses)
  {
  }

  /** Part of a level: `running` have begun only, `returned` have begun and returned. */
  ghost predicate InFlight(trace: seq<Event>, running: set<string>, returned: set<string>, refuses: set<string>) {
    && (forall n :: multiset(trace)[StopBegun(n)] == if n in running || n in returned then 1 else 0)
    && forall n, ok :: multiset(trace)[StopReturned(n, ok)] ==
                       if n in returned && ok == (n !in refuses) then 1 else 0
  }

  lemma BeginOne(trace: seq<Event>, running: set<string>, returned: set<string>, refuses: set<string>, n: string)
    requires InFlight(trace, running, returned, refuses) && BegunBeforeReturned(trace)
    requires n !in running && n !in returned
    ensures InFlight(trace + [StopBegun(n)], running + {n}, returned, refuses)
    ensures BegunBeforeReturned(trace + [StopBegun(n)])
  {
    var longer := trace + [StopBegun(n)];
    assert multiset(longer) == multiset(trace) + multiset{StopBegun(n)};
    forall m, ok ensures Before(longer, StopBegun(m), StopReturned(m, ok)) {
      Appears(trace, StopReturned(m, ok));
      BeforeInConcat(trace, [StopBegun(n)], StopBegun(m), StopReturned(m, ok));
    }
  }

  lemma ReturnOne(trace: seq<Event>, running: set<string>, returned: set<string>, refuses: set<string>, n: string)
    requires InFlight(trace, running, returned, refuses) && BegunBeforeReturned(trace)
    requires n in running && n !in returned
    ensures InFlight(trace + [StopReturned(n, n !in refuses)], running - {n}, returned + {n}, refuses)
    ensures BegunBeforeReturned(trace + [StopReturned(n, n !in refuses)])
  {
    var e := StopReturned(n, n !in refuses);
    assert multiset(trace + [e]) == multiset(trace) + multiset{e};
    forall m, ok ensures Before(trace + [e], StopBegun(m), StopReturned(m, ok)) {
      BeforeInConcat(trace, [e], StopBegun(m), StopReturned(m, ok));
    }
  }

  /** With a start order, no processes can be waiting for each other. */
  lemma NoKnotWithStartOrder(c: Processes, s: set<string>)
    requires StartOrderExists(c) && forall n :: n in s ==> IsEnabled(c, n)
    requires exists o :: IsTopological(StartGraph(c), o)
    ensures !Knot(c, s)
  {
    var o :| IsTopological(StartGraph(c), o);
    if Knot(c, s) {
      NotInKnot(c, o, s, 0);
      StartGraphFacts(c);
      assert forall n :: n in s ==> n in Elems(o);
    }
  }

  lemma {:induction false} NotInKnot(c: Processes, o: seq<string>, s: set<string>, k: nat)
    requires IsTopological(StartGraph(c), o) && Knot(c, s) && k <= |o|
    requires forall n :: n in s ==> IsEnabled(c, n)
    ensures forall i :: k <= i < |o| ==> o[i] !in s
    decreases |o| - k
  {
    if k < |o| {
      NotInKnot(c, o, s, k + 1);
      if o[k] in s {
        assert HeldUp(c, s, o[k]);
        var other :| other in s && HoldsUp(c, other, o[k]);
        LaterThanDeps(c, o, k, other);
      }
    }
  }

  lemma LaterThanDeps(c: Processes, o: seq<string>, k: nat, other: string)
    requires IsTopological(StartGraph(c), o) && k < |o| && IsEnabled(c, other) && HoldsUp(c, other, o[k])
    ensures other in o[k + 1..]
  {
    StartGraphFacts(c);
    assert o[k] in Elems(o) && other in Elems(o);
    StartGraphEdge(c, other, o[k]);
    hide StartGraph;
    var j :| 0 <= j < |o| && o[j] == other;
    assert DepsBefore(StartGraph(c), o, j);
    var i :| 0 <= i < j && o[i] == o[k];
    assert o[k + 1..][j - k - 1] == other;
  }

  /** Until the fallback is taken, a knot is never touched. */
  lemma KnotStays(c: Processes, remaining: set<string>, s: set<string>)
    requires Knot(c, s) && s <= remaining
    ensures s <= remaining - Unblocked(c, remaining)
  {
    forall n | n in s ensures n !in Unblocked(c, remaining) {
      assert HeldUp(c, s, n);
      var other :| other in s && HoldsUp(c, other, n);
      assert other in remaining;
    }
  }

  /** A round that finds every remaining process held up has found a knot. */
  lemma StuckIsKnot(c: Processes, remaining: set<string>, all: set<string>)
    requires remaining != {} && Unblocked(c, remaining) == {} && remaining <= all
    ensures HasKnot(c, all)
  {
    forall n | n in remaining ensures HeldUp(c, remaining, n) {
      assert n !in Unblocked(c, remaining);
    }
    assert Knot(c, remaining);
  }

  /** No knot within `all` has lost a member, unless the fallback was taken. */
  ghost predicate KnotsIntact(c: Processes, all: set<string>, remaining: set<string>) {
    forall s :: Knot(c, s) && s <= all ==> s <= remaining
  }

  /** The level loop: every process in `all` is stopped once, dependents first unless they form a knot. */
  method StopAll(c: Processes, all: set<string>, refuses: set<string>)
    returns (trace: seq<Event>, errors: nat, fallback: bool)
    ensures OnceEach(trace, all, refuses) && BegunBeforeReturned(trace)
    ensures errors == |all * refuses|
    ensures fallback <==> HasKnot(c, all)
    ensures !fallback ==> DependentsFirst(c, trace, all)
  {
    hide OnceEach, BegunBeforeReturned, DependentsFirst, KnotsIntact, OrderedSoFar, Unblocked, HasKnot;
    var remaining := all;
    FirstRound(c, all, refuses);
    trace, errors, fallback := [], 0, false;
    while remaining != {}
      invariant remaining <= all && LevelsDone(c, trace, all - remaining, refuses)
      invariant errors == |(all - remaining) * refuses|
      invariant fallback ==> remaining == {} && HasKnot(c, all)
      invariant !fallback ==> KnotsIntact(c, all, remaining) && OrderedSoFar(c, trace, all, remaining)
      decreases |remaining|
    {
      var level := NextLevel(c, remaining);
      if level == {} {
        StuckIsKnot(c, remaining, all);
        fallback := true;
        level := remaining;
      }
      var more, failed := StopLevel(level, refuses);
      NextRound(c, all, remaining, level, trace, more, refuses, fallback);
      remaining := remaining - level;
      trace, errors := trace + more, errors + failed;
    }
    assert all - {} == all;
    if !fallback {
      LastRound(c, all, trace);
    }
  }

  lemma FirstRound(c: Processes, all: set<string>, refuses: set<string>)
    ensures LevelsDone(c, [], all - all, refuses) && KnotsIntact(c, all, all) && OrderedSoFar(c, [], all, all)
    ensures |(all - all) * refuses| == 0
  {
    NothingBegun(refuses);
  }

  lemma LastRound(c: Processes, all: set<string>, trace: seq<Event>)
    requires KnotsIntact(c, all, {}) && OrderedSoFar(c, trace, all, {})
    ensures !HasKnot(c, all) && DependentsFirst(c, trace, all)
  {
    assert all - {} == all;
  }

  ghost predicate LevelsDone(c: Processes, trace: seq<Event>, done: set<string>, refuses: set<string>) {
    OnceEach(trace, done, refuses) && BegunBeforeReturned(trace)
  }

  ghost predicate OrderedSoFar(c: Processes, trace: seq<Event>, all: set<string>, remaining: set<string>) {
    && DependentsFirst(c, trace, all - remaining)
    && forall n, other :: n in all - remaining && other in remaining ==> !HoldsUp(c, other, n)
  }

  lemma ErrorCount(done: set<string>, level: set<string>, refuses: set<string>)
    requires done !! level
    ensures |(done + level) * refuses| == |done * refuses| + |level * refuses|
  {
    assert (done + level) * refuses == done * refuses + level * refuses;
  }

  lemma NextRound(c: Processes, all: set<string>, remaining: set<string>, level: set<string>,
                  trace: seq<Event>, more: seq<Event>, refuses: set<string>, fallback: bool)
    requires remaining <= all && level <= remaining && LevelsDone(c, trace, all - remaining, refuses)
    requires LevelsDone(c, more, level, refuses)
    requires !fallback ==> level == Unblocked(c, remaining)
    requires !fallback ==> KnotsIntact(c, all, remaining) && OrderedSoFar(c, trace, all, remaining)
    ensures LevelsDone(c, trace + more, all - (remaining - level), refuses)
    ensures |(all - (remaining - level)) * refuses| == |(all - remaining) * refuses| + |level * refuses|
    ensures |remaining - level| == |remaining| - |level|
    ensures !fallback ==> KnotsIntact(c, all, remaining - level)
    ensures !fallback ==> OrderedSoFar(c, trace + more, all, remaining - level)
  {
    var done := all - remaining;
    OnceEachConcat(trace, more, done, level, refuses);
    OnlyItsNames(trace, done, refuses);
    OnlyItsNames(more, level, refuses);
    BegunConcat(trace, more, done, level);
    ErrorCount(done, level, refuses);
    assert all - (remaining - level) == done + level;
    assert remaining == (remaining - level) + level;
    if !fallback {
      forall s | Knot(c, s) && s <= all ensures s <= remaining - level {
        KnotStays(c, remaining, s);
      }
      AddLevel(c, trace, done, more, level, refuses);
    }
  }

  /**
   * Shutdown's stopping phase for the processes with a supervisor. It stops each exactly once and,
   * whenever a start order exists, only after everything that depends on it has stopped.
   */
  method StopTracked(c: Processes, tracked: set<string>, refuses: set<string>)
    returns (trace: seq<Event>, errors: nat, fallback: bool)
    ensures OnceEach(trace, ToStop(c, tracked), refuses) && BegunBeforeReturned(trace)
    ensures errors == |ToStop(c, tracked) * refuses|
    ensures StartOrderExists(c) ==> !fallback
    ensures !fallback ==> DependentsFirst(c, trace, ToStop(c, tracked))
    ensures fallback <==> HasKnot(c, ToStop(c, tracked))
  {
    var order := GetShutdownOrder(c);
    var remaining := {};
    for i := 0 to |order|
      invariant remaining == set n | n in order[..i] && n in tracked
    {
      assert order[..i + 1] == order[..i] + [order[i]];
      if order[i] in tracked {
        remaining := remaining + {order[i]};
      }
    }
    assert order[..|order|] == order;
    StoppedAre(c, tracked, order, remaining);
    trace, errors, fallback := StopAll(c, remaining, refuses);
  }

  lemma StoppedAre(c: Processes, tracked: set<string>, order: seq<string>, remaining: set<string>)
    requires StartOrderExists(c) ==> IsTopological(StartGraph(c), Reverse(order))
    requires !StartOrderExists(c) ==> Elems(order) == c.Keys
    requires remaining == set n | n in order && n in tracked
    ensures remaining == ToStop(c, tracked)
    ensures StartOrderExists(c) ==> !HasKnot(c, remaining)
  {
    if StartOrderExists(c) {
      ReversedOrder(c, Reverse(order));
      ReverseTwice(order);
      forall s | s <= remaining ensures !Knot(c, s) {
        NoKnotWithStartOrder(c, s);
      }
    } else {
      assert forall n :: n in order <==> n in Elems(order);
    }
  }
}
