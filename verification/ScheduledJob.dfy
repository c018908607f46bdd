/**
 * Execution of scheduled jobs (internal/schedule/job.go) and the execution history
 * (internal/schedule/history.go). Several goroutines run executeSync at once, so the job is a state
 * machine over the points at which they interleave.
 */
module ScheduledJob {
  import opened Options

  datatype Result = Result(exitCode: int, success: bool, error: string)

  /** One execution; it is running while it has no end. */
  datatype Entry = Entry(id: nat, triggered: string, end: Option<Result>)

  datatype History = History(entries: seq<Entry>, maxSize: nat, nextId: nat)

  // ----- the history

  function NewHistory(maxSize: int): History {
    History([], if maxSize <= 0 then 100 else maxSize, 1)
  }

  /** StartExecution: the oldest entry makes room for a new running one. */
  function Started(h: History, triggered: string): History {
    var kept := if |h.entries| >= h.maxSize && h.entries != [] then h.entries[1..] else h.entries;
    h.(entries := kept + [Entry(h.nextId, triggered, None)], nextId := h.nextId + 1)
  }

  /** EndExecution: the latest entry with that ID gets the result. */
  function Ended(entries: seq<Entry>, id: nat, r: Result): seq<Entry>
    decreases |entries|
  {
    if entries == [] then []
    else
      var front, last := entries[..|entries| - 1], entries[|entries| - 1];
      if last.id == id then front + [last.(end := Some(r))] else Ended(front, id, r) + [last]
  }

  /** The last entry with that ID. */
  ghost predicate IsLatest(entries: seq<Entry>, i: int, id: nat)
    requires 0 <= i < |entries|
  {
    entries[i].id == id && forall j :: i < j < |entries| ==> entries[j].id != id
  }

  /** Of `before`, the last entry with that ID has ended with `r`; nothing else has changed. */
  ghost predicate Recorded(before: seq<Entry>, after: seq<Entry>, id: nat, r: Result) {
    && |after| == |before|
    && forall i :: 0 <= i < |after| ==>
         after[i] == if IsLatest(before, i, id) then Entry(before[i].id, before[i].triggered, Some(r)) else before[i]
  }

  lemma {:induction false} EndedRecords(entries: seq<Entry>, id: nat, r: Result)
    ensures Recorded(entries, Ended(entries, id, r), id, r)
    decreases |entries|
  {
    if entries != [] {
      var front, last := entries[..|entries| - 1], entries[|entries| - 1];
      EndedRecords(front, id, r);
      forall i | 0 <= i < |front| && last.id != id ensures IsLatest(entries, i, id) <==> IsLatest(front, i, id) {
        assert forall j :: i < j < |front| ==> front[j] == entries[j];
      }
    }
  }

  class ExecutionHistory {
    var entries: seq<Entry>
    const maxSize: nat
    var nextId: nat

    constructor (maxSize: int)
      ensures Contents() == NewHistory(maxSize)
      ensures entries == [] && nextId == 1 && this.maxSize == if maxSize <= 0 then 100 else maxSize
    {
      entries, nextId := [], 1;
      this.maxSize := if maxSize <= 0 then 100 else maxSize;
    }

    function Contents(): History
      reads this
    {
      History(entries, maxSize, nextId)
    }

    method StartExecution(triggered: string) returns (id: nat)
      requires maxSize > 0
      modifies this
      ensures id == old(nextId) && Contents() == Started(old(Contents()), triggered)
    {
      id := nextId;
      nextId := nextId + 1;
      if |entries| >= maxSize {
        entries := entries[1..];
      }
      entries := entries + [Entry(id, triggered, None)];
    }

    method EndExecution(id: nat, r: Result)
      modifies this
      ensures Contents() == old(Contents()).(entries := Ended(old(entries), id, r))
      ensures Recorded(old(entries), entries, id, r)
    {
      EndedRecords(entries, id, r);
      hide Recorded;
      var i: nat := |entries|;
      assert entries[..i] == entries;
      while i > 0
        invariant i <= |entries| && entries == old(entries)
        invariant Ended(entries, id, r) == Ended(entries[..i], id, r) + entries[i..]
      {
        i := i - 1;
        assert entries[..i + 1][..i] == entries[..i];
        if entries[i].id == id {
          entries := entries[i := entries[i].(end := Some(r))];
          assert entries == old(entries)[..i] + [old(entries)[i].(end := Some(r))] + old(entries)[i + 1..];
          return;
        }
        assert entries[i..] == [entries[i]] + entries[i + 1..];
      }
    }

    /** The `n` most recent entries, newest first; all of them for a count out of range. */
    method GetRecent(n: int) returns (result: seq<Entry>)
      ensures |result| == if 0 < n <= |entries| then n else |entries|
      ensures forall i :: 0 <= i < |result| ==> result[i] == entries[|entries| - 1 - i]
    {
      var count := n;
      if n <= 0 || n > |entries| {
        count := |entries|;
      }
      result := [];
      for i := 0 to count
        invariant |result| == i
        invariant forall k :: 0 <= k < i ==> result[k] == entries[|entries| - 1 - k]
      {
        result := result + [entries[|entries| - 1 - i]];
      }
    }
  }

  // ----- the job and the goroutines inside executeSync

  datatype JobState = Idle | Executing | Paused

  /**
   * Where a goroutine is: waiting for executionMu, holding it, running the executor, past the reset of
   * the state but before EndExecution, or past that and about to unlock.
   */
  datatype Pc =
    | Queued(why: string)
    | Entered(why: string)
    | Running(id: nat)
    | Closing(id: nat, result: Result)
    | Leaving(id: nat)

  type Thread = nat

  /**
   * `starts` and `ends` are the calls of StartExecution and EndExecution so far, by ID; `reasons` says
   * what set off each start, and `results` how the executor left each execution that it has left.
   */
  datatype State = State(
    job: JobState,
    current: nat,
    executionMu: Option<Thread>,
    threads: map<Thread, Pc>,
    history: History,
    starts: seq<nat>,
    ends: seq<nat>,
    reasons: seq<string>,
    results: seq<Result>)

  datatype Action =
    | Tick(t: Thread)
    | Trigger(t: Thread)
    | Lock(t: Thread)
    | Begin(t: Thread)
    | Finish(t: Thread, exitCode: int, error: Option<string>)
    | Panic(t: Thread, value: string)
    | Record(t: Thread)
    | Unlock(t: Thread)
    | Pause
    | Resume

  ghost predicate Init(s: State) {
    && s.history.maxSize > 0
    && s == State(Idle, 0, None, map[], History([], s.history.maxSize, 1), [], [], [], [])
  }

  ghost predicate Possible(s: State, a: Action) {
    match a
    case Tick(t) => t !in s.threads
    case Trigger(t) => t !in s.threads
    case Lock(t) => t in s.threads && s.threads[t].Queued? && s.executionMu.None?
    case Begin(t) => t in s.threads && s.threads[t].Entered?
    case Finish(t, _, _) => t in s.threads && s.threads[t].Running?
    case Panic(t, _) => t in s.threads && s.threads[t].Running?
    case Record(t) => t in s.threads && s.threads[t].Closing?
    case Unlock(t) => t in s.threads && s.threads[t].Leaving?
    case Pause => true
    case Resume => true
  }

  function PausedFrom(j: JobState): JobState {
    if j.Executing? then j else Paused
  }

  function ResumedFrom(j: JobState): JobState {
    if j.Paused? then Idle else j
  }

  predicate TriggerOk(j: JobState) {
    j != Paused && j != Executing
  }

  /** Leaving executeSync: the deferred unlock. */
  function Left(s: State, t: Thread): State {
    s.(executionMu := None, threads := s.threads - {t})
  }

  /** The section under j.mu that decides whether to run. */
  function Begun(s: State, t: Thread, why: string): State {
    if !s.job.Idle? then Left(s, t)
    else
      var id := s.history.nextId;
      s.(job := Executing, current := id, history := Started(s.history, why),
         threads := s.threads[t := Running(id)], starts := s.starts + [id], reasons := s.reasons + [why])
  }

  /** The section under j.mu after the executor is done, or has panicked. */
  function Closed(s: State, t: Thread, id: nat, r: Result): State {
    s.(job := Idle, current := 0, threads := s.threads[t := Closing(id, r)], results := s.results + [r])
  }

  /** What is recorded for an executor that returns. */
  function Returned(exitCode: int, error: Option<string>): (r: Result)
    ensures r.exitCode == exitCode && (r.success <==> exitCode == 0 && error.None?)
    ensures r.error == if error.Some? then error.value else ""
  {
    Result(exitCode, error.None? && exitCode == 0, if error.Some? then error.value else "")
  }

  /** And for one that panics. */
  function Panicked(value: string): (r: Result)
    ensures r.exitCode == -1 && !r.success && r.error == "panic: " + value
  {
    Result(-1, false, "panic: " + value)
  }

  ghost function Next(s: State, a: Action): State
    requires Possible(s, a)
  {
    match a
    case Tick(t) => s.(threads := s.threads[t := Queued("schedule")])
    case Trigger(t) => if TriggerOk(s.job) then s.(threads := s.threads[t := Queued("manual")]) else s
    case Lock(t) => s.(executionMu := Some(t), threads := s.threads[t := Entered(s.threads[t].why)])
    case Begin(t) => Begun(s, t, s.threads[t].why)
    case Finish(t, exitCode, error) => Closed(s, t, s.threads[t].id, Returned(exitCode, error))
    case Panic(t, value) => Closed(s, t, s.threads[t].id, Panicked(value))
    case Record(t) =>
      var id, r := s.threads[t].id, s.threads[t].result;
      s.(history := s.history.(entries := Ended(s.history.entries, id, r)),
         threads := s.threads[t := Leaving(id)], ends := s.ends + [id])
    case Unlock(t) => Left(s, t)
    case Pause => s.(job := PausedFrom(s.job))
    case Resume => s.(job := ResumedFrom(s.job))
  }

  // ----- what every reachable state satisfies

  /** The execution under way: started, and not yet recorded as ended. */
  ghost function Open(s: State): Option<nat> {
    if s.executionMu.None? || s.executionMu.value !in s.threads then None
    else
      match s.threads[s.executionMu.value]
      case Running(id) => Some(id)
      case Closing(id, _) => Some(id)
      case _ => None
  }

  ghost predicate Exclusive(s: State) {
    && (forall t :: t in s.threads && !s.threads[t].Queued? ==> s.executionMu == Some(t))
    && (s.executionMu.Some? ==> s.executionMu.value in s.threads && !s.threads[s.executionMu.value].Queued?)
  }

  ghost predicate IsRunning(s: State) {
    s.executionMu.Some? && s.executionMu.value in s.threads && s.threads[s.executionMu.value].Running?
  }

  ghost predicate StateOk(s: State) {
    && (s.job.Executing? <==> IsRunning(s))
    && s.current == if IsRunning(s) then s.threads[s.executionMu.value].id else 0
  }

  /** Increasing IDs, and the open execution, if any, is the newest entry and the only running one. */
  ghost predicate EntriesOk(h: History, open: Option<nat>) {
    && h.maxSize > 0 && h.nextId > 0 && |h.entries| <= h.maxSize
    && (forall i, j :: 0 <= i < j < |h.entries| ==> h.entries[i].id < h.entries[j].id)
    && (forall i :: 0 <= i < |h.entries| ==> 0 < h.entries[i].id < h.nextId)
    && (forall i :: 0 <= i < |h.entries| ==> (h.entries[i].end.None? <==> open == Some(h.entries[i].id)))
    && (open.Some? ==> IsNewest(h, open.value))
  }

  ghost predicate IsNewest(h: History, id: nat) {
    h.entries != [] && h.entries[|h.entries| - 1].id == id
  }

  ghost predicate HistoryOk(s: State) {
    && EntriesOk(s.history, Open(s))
    && forall t :: t in s.threads && s.threads[t].Leaving? ==> IsNewest(s.history, s.threads[t].id)
  }

  ghost predicate CallsOk(s: State) {
    && |s.starts| == s.history.nextId - 1
    && (forall i :: 0 <= i < |s.starts| ==> s.starts[i] == i + 1)
    && s.starts == s.ends + (if Open(s).Some? then [Open(s).value] else [])
  }

  /** The goroutine that has the executor behind it but not yet recorded its result. */
  ghost predicate IsClosing(s: State) {
    s.executionMu.Some? && s.executionMu.value in s.threads && s.threads[s.executionMu.value].Closing?
  }

  ghost predicate ResultsOk(s: State) {
    && |s.reasons| == |s.starts|
    && |s.results| == |s.ends| + (if IsClosing(s) then 1 else 0)
    && (IsClosing(s) ==> s.threads[s.executionMu.value].result == s.results[|s.ends|])
    && |s.history.entries| == Min(s.history.maxSize, |s.starts|)
    && forall i :: 0 <= i < |s.history.entries| ==> RetainedOk(s, i)
  }

  function Min(a: nat, b: nat): nat {
    if a < b then a else b
  }

  /** The entry is that of the execution so many before the last, with what set it off and how it ended. */
  ghost predicate RetainedOk(s: State, i: int)
    requires 0 <= i < |s.history.entries|
  {
    var k := |s.starts| - |s.history.entries| + i;
    && 0 <= k < |s.starts| && k < |s.reasons|
    && s.history.entries[i].id == s.starts[k] && s.history.entries[i].triggered == s.reasons[k]
    && s.history.entries[i].end == if k < |s.ends| && k < |s.results| then Some(s.results[k]) else None
  }

  ghost predicate Inv(s: State) {
    Exclusive(s) && StateOk(s) && HistoryOk(s) && CallsOk(s) && ResultsOk(s)
  }

  lemma EndedOk(h: History, id: nat, r: Result)
    requires EntriesOk(h, Some(id))
    ensures EntriesOk(h.(entries := Ended(h.entries, id, r)), None)
    ensures IsNewest(h.(entries := Ended(h.entries, id, r)), id)
  {
    var last := |h.entries| - 1;
    assert Ended(h.entries, id, r) == h.entries[last := h.entries[last].(end := Some(r))];
    hide Ended;
  }

  lemma StartedOk(h: History, triggered: string)
    requires EntriesOk(h, None)
    ensures EntriesOk(Started(h, triggered), Some(h.nextId))
  {
    var e := Started(h, triggered).entries;
    var drop := if |h.entries| == h.maxSize then 1 else 0;
    assert forall i :: 0 <= i < |e| - 1 ==> e[i] == h.entries[i + drop];
  }

  lemma ExclusiveStep(s: State, a: Action)
    requires Inv(s) && Possible(s, a)
    ensures Exclusive(Next(s, a)) && StateOk(Next(s, a))
  {
    hide HistoryOk, CallsOk, Started, Ended;
  }

  /** How the open execution changes, given that the lock holder is the only goroutine inside. */
  lemma OpenStep(s: State, a: Action)
    requires Inv(s) && Possible(s, a)
    ensures Open(Next(s, a)) ==
            if a.Begin? && s.job.Idle? then Some(s.history.nextId)
            else if a.Record? then None
            else Open(s)
    ensures a.Begin? ==> Open(s).None?
    ensures a.Record? ==> Open(s) == Some(s.threads[a.t].id)
  {
    hide HistoryOk, CallsOk, Started, Ended;
  }

  lemma HistoryStep(s: State, a: Action)
    requires Inv(s) && Possible(s, a)
    ensures HistoryOk(Next(s, a))
  {
    OpenStep(s, a);
    if a.Record? {
      EndedOk(s.history, s.threads[a.t].id, s.threads[a.t].result);
    }
    if a.Begin? && s.job.Idle? {
      StartedOk(s.history, s.threads[a.t].why);
    }
    hide Open, EntriesOk, CallsOk, Started, Ended;
  }

  lemma StepInv(s: State, a: Action)
    requires Inv(s) && Possible(s, a)
    ensures Inv(Next(s, a))
  {
    ExclusiveStep(s, a);
    HistoryStep(s, a);
    OpenStep(s, a);
    ResultsStep(s, a);
    assert |Next(s, a).starts| == Next(s, a).history.nextId - 1;
    hide Open, Exclusive, StateOk, HistoryOk, ResultsOk, Ended;
  }

  lemma ResultsStep(s: State, a: Action)
    requires Inv(s) && Possible(s, a)
    ensures ResultsOk(Next(s, a))
  {
    hide ResultsOk;
    if a.Record? {
      RecordResults(s, a);
    } else if a.Begin? && s.job.Idle? {
      BeginResults(s, a);
    } else {
      OtherResults(s, a);
    }
  }

  lemma RecordResults(s: State, a: Action)
    requires Inv(s) && Possible(s, a) && a.Record?
    ensures ResultsOk(Next(s, a))
  {
    OpenStep(s, a);
    var t, id, r := Next(s, a), s.threads[a.t].id, s.threads[a.t].result;
    EndedRecords(s.history.entries, id, r);
    hide Ended, Started, StateOk;
    var last := |s.history.entries| - 1;
    assert IsClosing(s) && !IsClosing(t) && r == s.results[|s.ends|];
    assert forall i :: 0 <= i <= last ==> (IsLatest(s.history.entries, i, id) <==> i == last);
    assert |s.starts| == |s.ends| + 1;
    hide HistoryOk, CallsOk, Exclusive, Open, IsClosing;
    forall i | 0 <= i <= last ensures RetainedOk(t, i) {
      assert RetainedOk(s, i);
    }
  }

  lemma BeginResults(s: State, a: Action)
    requires Inv(s) && Possible(s, a) && a.Begin? && s.job.Idle?
    ensures ResultsOk(Next(s, a))
  {
    OpenStep(s, a);
    var t := Next(s, a);
    hide Ended, StateOk;
    assert !IsClosing(s) && !IsClosing(t);
    assert |s.starts| == |s.ends| && |s.history.entries| <= s.history.maxSize && s.history.maxSize > 0;
    assert s.history.nextId == |s.starts| + 1;
    hide HistoryOk, CallsOk, Exclusive, Open, IsClosing;
    var drop := if |s.history.entries| == s.history.maxSize then 1 else 0;
    forall i | 0 <= i < |t.history.entries| ensures RetainedOk(t, i) {
      if i < |t.history.entries| - 1 {
        assert t.history.entries[i] == s.history.entries[i + drop];
        assert RetainedOk(s, i + drop);
      }
    }
  }

  lemma OtherResults(s: State, a: Action)
    requires Inv(s) && Possible(s, a) && !a.Record? && !(a.Begin? && s.job.Idle?)
    ensures ResultsOk(Next(s, a))
  {
    hide Ended, Started, Open, HistoryOk;
    var t := Next(s, a);
    assert t.history == s.history && t.starts == s.starts && t.ends == s.ends && t.reasons == s.reasons;
    assert s.results <= t.results && |t.results| == |t.ends| + if IsClosing(t) then 1 else 0;
    assert IsClosing(t) ==> t.threads[t.executionMu.value].result == t.results[|t.ends|];
    hide StateOk, CallsOk, Exclusive, IsClosing;
    forall i | 0 <= i < |t.history.entries| ensures RetainedOk(t, i) {
      assert RetainedOk(s, i);
    }
  }

  // ----- runs

  ghost predicate CanRun(s: State, actions: seq<Action>)
    decreases |actions|
  {
    actions == [] || (Possible(s, actions[0]) && CanRun(Next(s, actions[0]), actions[1..]))
  }

  ghost function Run(s: State, actions: seq<Action>): State
    requires CanRun(s, actions)
    decreases |actions|
  {
    if actions == [] then s else Run(Next(s, actions[0]), actions[1..])
  }

  ghost predicate Reachable(s: State) {
    exists start, actions :: Init(start) && CanRun(start, actions) && Run(start, actions) == s
  }

  lemma {:induction false} RunInv(s: State, actions: seq<Action>)
    requires Inv(s) && CanRun(s, actions)
    ensures Inv(Run(s, actions))
    decreases |actions|
  {
    if actions != [] {
      StepInv(s, actions[0]);
      RunInv(Next(s, actions[0]), actions[1..]);
    }
  }

  lemma ReachableInv(s: State)
    requires Reachable(s)
    ensures Inv(s)
  {
    var start, actions :| Init(start) && CanRun(start, actions) && Run(start, actions) == s;
    RunInv(start, actions);
  }

  /** At most one goroutine is between StartExecution and the end of its execution. */
  lemma NeverOverlap(s: State, t: Thread, u: Thread)
    requires Reachable(s) && t in s.threads && u in s.threads && !s.threads[t].Queued? && !s.threads[u].Queued?
    ensures t == u
  {
    ReachableInv(s);
  }

  /** With executionMu free nothing is left behind, whatever panicked: no Executing, no ID, no running entry. */
  lemma RestIsClean(s: State)
    requires Reachable(s) && s.executionMu.None?
    ensures !s.job.Executing? && s.current == 0
    ensures forall i :: 0 <= i < |s.history.entries| ==> s.history.entries[i].end.Some?
    ensures s.starts == s.ends
  {
    ReachableInv(s);
  }

  /** Every execution started is ended once, under its own ID, in the order of the starts; one may still be open. */
  lemma EachEndedOnce(s: State)
    requires Reachable(s)
    ensures s.ends <= s.starts && |s.starts| <= |s.ends| + 1
    ensures forall i, j :: 0 <= i < j < |s.ends| ==> s.ends[i] != s.ends[j]
    ensures forall i :: 0 <= i < |s.ends| ==> s.ends[i] == i + 1
  {
    ReachableInv(s);
  }

  /**
   * The history holds the latest executions, as many as it may, each with what set it off and, once it
   * has ended, with exactly what its executor returned or panicked with.
   */
  lemma HistoryExactly(s: State, i: nat)
    requires Reachable(s) && i < |s.history.entries|
    ensures |s.history.entries| == Min(s.history.maxSize, |s.starts|)
    ensures var k := |s.starts| - |s.history.entries| + i;
            && 0 <= k < |s.starts| == |s.reasons| && |s.ends| <= |s.results|
            && s.history.entries[i] ==
               Entry(k + 1, s.reasons[k], if k < |s.ends| then Some(s.results[k]) else None)
  {
    ReachableInv(s);
    assert RetainedOk(s, i);
  }

  ghost predicate NoResume(actions: seq<Action>) {
    forall i :: 0 <= i < |actions| ==> !actions[i].Resume?
  }

  /** A paused job starts nothing until it is resumed, whoever is waiting. */
  lemma {:induction false} PausedIsQuiet(s: State, actions: seq<Action>)
    requires Inv(s) && s.job.Paused? && NoResume(actions) && CanRun(s, actions)
    ensures Run(s, actions).job.Paused? && Run(s, actions).starts == s.starts
    decreases |actions|
  {
    if actions != [] {
      StepInv(s, actions[0]);
      assert !actions[0].Resume?;
      PausedIsQuiet(Next(s, actions[0]), actions[1..]);
    }
  }

  /** The "already executing" guard behind the mutex never fires. */
  lemma GuardNeverFires(s: State, t: Thread)
    requires Reachable(s) && t in s.threads && s.threads[t].Entered?
    ensures !s.job.Executing?
  {
    ReachableInv(s);
  }

  /** The entry whose duration is logged on completion is the execution's own. */
  lemma LogsOwnEntry(s: State, t: Thread)
    requires Reachable(s) && t in s.threads && s.threads[t].Leaving?
    ensures IsNewest(s.history, s.threads[t].id) && s.history.entries[|s.history.entries| - 1].end.Some?
  {
    ReachableInv(s);
  }

  /**
   * A tick that comes while the job is executing is not skipped: from any such state it can wait for
   * the mutex and then run.
   */
  lemma OverlappingTickRuns(s: State, t: Thread, u: Thread) returns (actions: seq<Action>)
    requires Reachable(s) && t in s.threads && s.threads[t].Running? && u !in s.threads
    ensures |actions| == 6 && actions[0] == Tick(u) && CanRun(s, actions)
    ensures var e := Run(s, actions);
            && e.job.Executing? && e.current == s.current + 1 && u in e.threads && e.threads[u].Running?
            && e.reasons == s.reasons + ["schedule"] && e.results == s.results + [Result(0, true, "")]
  {
    ReachableInv(s);
    assert s.executionMu == Some(t) && s.starts[|s.starts| - 1] == s.threads[t].id;
    assert s.current == s.history.nextId - 1;
    actions := [Tick(u), Finish(t, 0, None), Record(t), Unlock(t), Lock(u), Begin(u)];
    var s1 := Next(s, Tick(u));
    var s2 := Next(s1, Finish(t, 0, None));
    var s3 := Next(s2, Record(t));
    var s4 := Next(s3, Unlock(t));
    var s5 := Next(s4, Lock(u));
    var s6 := Next(s5, Begin(u));
    hide Inv, Ended, Started;
    RunStep(s5, [Begin(u)]);
    RunStep(s4, [Lock(u), Begin(u)]);
    RunStep(s3, [Unlock(t), Lock(u), Begin(u)]);
    RunStep(s2, [Record(t), Unlock(t), Lock(u), Begin(u)]);
    RunStep(s1, [Finish(t, 0, None), Record(t), Unlock(t), Lock(u), Begin(u)]);
    RunStep(s, actions);
    assert Run(s, actions) == s6;
  }

  /** From rest, a tick or a trigger runs the job at once, under its own reason. */
  lemma RunsFromRest(s: State, u: Thread, manual: bool) returns (actions: seq<Action>)
    requires Reachable(s) && s.executionMu.None? && s.job.Idle? && u !in s.threads
    ensures |actions| == 3 && actions[0] == (if manual then Trigger(u) else Tick(u)) && CanRun(s, actions)
    ensures var e := Run(s, actions);
            && e.job.Executing? && u in e.threads && e.threads[u] == Running(e.current) && e.current == |s.starts| + 1
            && e.reasons == s.reasons + [if manual then "manual" else "schedule"]
  {
    ReachableInv(s);
    var first := if manual then Trigger(u) else Tick(u);
    actions := [first, Lock(u), Begin(u)];
    var s1 := Next(s, first);
    var s2 := Next(s1, Lock(u));
    hide Inv, Started;
    RunStep(s2, [Begin(u)]);
    RunStep(s1, [Lock(u), Begin(u)]);
    RunStep(s, actions);
  }

  lemma RunStep(s: State, actions: seq<Action>)
    requires actions != [] && Possible(s, actions[0])
    ensures CanRun(s, actions) <==> CanRun(Next(s, actions[0]), actions[1..])
    ensures CanRun(s, actions) ==> Run(s, actions) == Run(Next(s, actions[0]), actions[1..])
  {
  }

  // ----- the job object

  class Job {
    var state: JobState
    var current: nat
    const history: ExecutionHistory

    constructor (historySize: int)
      ensures state == Idle && current == 0
      ensures fresh(history) && history.Contents() == NewHistory(historySize)
    {
      state, current := Idle, 0;
      history := new ExecutionHistory(historySize);
    }

    method Pause() returns (ok: bool)
      modifies this
      ensures ok == !old(state).Executing? && state == PausedFrom(old(state))
      ensures state == (if ok then Paused else old(state)) && current == old(current)
    {
      if state.Executing? {
        return false;
      }
      state := Paused;
      return true;
    }

    method Resume() returns (ok: bool)
      modifies this
      ensures ok == old(state).Paused? && state == ResumedFrom(old(state))
      ensures state == (if ok then Idle else old(state)) && current == old(current)
    {
      if !state.Paused? {
        return false;
      }
      state := Idle;
      return true;
    }

    /** Trigger and TriggerSync, up to the execution itself: refused for a job that is paused or executing. */
    method Trigger() returns (ok: bool)
      ensures ok == TriggerOk(state) == state.Idle?
    {
      if state.Paused? {
        return false;
      }
      if state.Executing? {
        return false;
      }
      return true;
    }

    /** The first section of executeSync: the ID of the execution, or None for a job that is not idle. */
    method Enter(triggered: string) returns (id: Option<nat>)
      requires history.maxSize > 0
      modifies this, history
      ensures old(state).Idle? ==>
                && id == Some(old(history.nextId)) && state == Executing && current == id.value
                && history.Contents() == Started(old(history.Contents()), triggered)
      ensures !old(state).Idle? ==>
                id == None && state == old(state) && current == old(current)
                && history.Contents() == old(history.Contents())
    {
      if state.Paused? || state.Executing? {
        return None;
      }
      state := Executing;
      var execId := history.StartExecution(triggered);
      current := execId;
      return Some(execId);
    }

    /** The end of executeSync when the executor has returned. */
    method Complete(id: nat, exitCode: int, error: Option<string>)
      modifies this, history
      ensures state == Idle && current == 0 && history.nextId == old(history.nextId)
      ensures Recorded(old(history.entries), history.entries, id, Returned(exitCode, error))
    {
      var success := error.None? && exitCode == 0;
      var message := "";
      if error.Some? {
        message := error.value;
      }
      Leave(id, Result(exitCode, success, message));
    }

    /** The end of executeSync, on the normal path and on a panic alike: reset the state, then record. */
    method Leave(id: nat, r: Result)
      modifies this, history
      ensures state == Idle && current == 0 && history.nextId == old(history.nextId)
      ensures Recorded(old(history.entries), history.entries, id, r)
      ensures history.Contents() == old(history.Contents()).(entries := Ended(old(history.entries), id, r))
    {
      state, current := Idle, 0;
      history.EndExecution(id, r);
    }
  }
}
