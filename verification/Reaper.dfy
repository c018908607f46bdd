/**
 * The handoff of exit statuses between the wildcard reaper and the owners of supervised children
 * (internal/signals/handler.go, internal/signals/run.go, internal/process/supervisor.go).
 *
 * The code runs in several goroutines around one mutex, so the model is a state machine whose steps
 * are the points at which they can interleave.
 */
module Reaper {
  import opened Options

  datatype WaitStatus = Exited(code: int) | Signaled(signal: int)

  type Pid = nat

  /** One incarnation of a pid: the kernel may hand out the same pid again later. */
  datatype Child = Child(pid: Pid, birth: nat)

  // ----- the two maps behind supervisedMu

  datatype Table = Table(supervised: set<Pid>, reaped: map<Pid, WaitStatus>)

  function Registered(t: Table, pid: Pid): Table {
    t.(supervised := t.supervised + {pid})
  }

  function Unregistered(t: Table, pid: Pid): Table {
    Table(t.supervised - {pid}, t.reaped - {pid})
  }

  /** reapOne keeps the status of a supervised child and drops that of an orphan. */
  function Captured(t: Table, pid: Pid, status: WaitStatus): Table {
    if pid in t.supervised then t.(reaped := t.reaped[pid := status]) else t
  }

  function Taken(t: Table, pid: Pid): (Table, Option<WaitStatus>) {
    if pid in t.reaped then (Unregistered(t, pid), Some(t.reaped[pid])) else (t, None)
  }

  class Registry {
    var supervised: set<Pid>
    var reaped: map<Pid, WaitStatus>

    constructor ()
      ensures Maps() == Table({}, map[])
    {
      supervised, reaped := {}, map[];
    }

    function Maps(): Table
      reads this
    {
      Table(supervised, reaped)
    }

    method RegisterSupervised(pid: Pid)
      modifies this
      ensures Maps() == Registered(old(Maps()), pid)
      ensures supervised == old(supervised) + {pid} && reaped == old(reaped)
    {
      supervised := supervised + {pid};
    }

    method UnregisterSupervised(pid: Pid)
      modifies this
      ensures Maps() == Unregistered(old(Maps()), pid)
      ensures supervised == old(supervised) - {pid} && reaped == old(reaped) - {pid}
    {
      supervised := supervised - {pid};
      reaped := reaped - {pid};
    }

    method TakeReapedStatus(pid: Pid) returns (status: Option<WaitStatus>)
      modifies this
      ensures (Maps(), status) == Taken(old(Maps()), pid)
    {
      status := None;
      if pid in reaped {
        status := Some(reaped[pid]);
        reaped := reaped - {pid};
        supervised := supervised - {pid};
      }
    }

    method Capture(pid: Pid, status: WaitStatus)
      modifies this
      ensures Maps() == Captured(old(Maps()), pid, status)
    {
      if pid in supervised {
        reaped := reaped[pid := status];
      }
    }
  }

  // ----- the state machine

  /** Where a child's owner stands: starting it, in Wait, back from Wait, or finished with a result. */
  datatype Phase =
    | Starting
    | Waiting
    | WaitReaped(status: WaitStatus)
    | WaitFailed
    | Collected(result: Option<WaitStatus>)

  /** Who holds supervisedMu, and how far it has come. */
  datatype Lock =
    | Free
    | Starter
    | Forked(child: Child)
    | Sweeping
    | Holding(pid: Pid, status: WaitStatus)

  datatype Proc = Proc(child: Child, exit: Option<WaitStatus>)

  /** `exits` is the kernel's truth, `who` the child behind each registered pid, `log` every delivery. */
  datatype State = State(
    kernel: map<Pid, Proc>,
    table: Table,
    lock: Lock,
    owners: map<Child, Phase>,
    exits: map<Child, WaitStatus>,
    who: map<Pid, Child>,
    log: seq<(Child, Option<WaitStatus>)>)

  datatype Action =
    | LockToStart
    | StartFails
    | Fork(child: Child)
    | RegisterAndUnlock
    | OrphanArrives(child: Child)
    | Exit(pid: Pid, status: WaitStatus)
    | LockToSweep
    | SweepEmpty
    | SweepOne(pid: Pid)
    | StashAndUnlock
    | Wait(child: Child)
    | Collect(child: Child)

  ghost predicate Init(s: State) {
    s == State(map[], Table({}, map[]), Free, map[], map[], map[], [])
  }

  /** A child nobody has seen yet, on a pid that is neither in use nor still registered. */
  ghost predicate Fresh(s: State, c: Child) {
    c !in s.owners && c !in s.exits && c.pid !in s.kernel && c.pid !in s.table.supervised
  }

  /** Whether an action can happen now. Wait on a running child blocks. */
  ghost predicate Possible(s: State, a: Action) {
    match a
    case LockToStart => s.lock.Free?
    case StartFails => s.lock.Starter?
    case Fork(c) => s.lock.Starter? && Fresh(s, c)
    case RegisterAndUnlock => s.lock.Forked?
    case OrphanArrives(c) => Fresh(s, c)
    case Exit(pid, _) => pid in s.kernel && s.kernel[pid].exit.None?
    case LockToSweep => s.lock.Free?
    case SweepEmpty => s.lock.Sweeping?
    case SweepOne(pid) => s.lock.Sweeping? && pid in s.kernel && s.kernel[pid].exit.Some?
    case StashAndUnlock => s.lock.Holding?
    case Wait(c) => c in s.owners && s.owners[c].Waiting? && (c.pid in s.kernel ==> s.kernel[c.pid].exit.Some?)
    case Collect(c) => s.lock.Free? && c in s.owners && (s.owners[c].WaitReaped? || s.owners[c].WaitFailed?)
  }

  ghost function Next(s: State, a: Action): State
    requires Possible(s, a)
  {
    match a
    case LockToStart => s.(lock := Starter)
    case StartFails => s.(lock := Free)
    case Fork(c) => s.(kernel := s.kernel[c.pid := Proc(c, None)], owners := s.owners[c := Starting], lock := Forked(c))
    case RegisterAndUnlock =>
      var c := s.lock.child;
      s.(table := Registered(s.table, c.pid), who := s.who[c.pid := c], owners := s.owners[c := Waiting], lock := Free)
    case OrphanArrives(c) => s.(kernel := s.kernel[c.pid := Proc(c, None)])
    case Exit(pid, status) =>
      var c := s.kernel[pid].child;
      s.(kernel := s.kernel[pid := Proc(c, Some(status))], exits := s.exits[c := status])
    case LockToSweep => s.(lock := Sweeping)
    case SweepEmpty => s.(lock := Free)
    case SweepOne(pid) => s.(kernel := s.kernel - {pid}, lock := Holding(pid, s.kernel[pid].exit.value))
    case StashAndUnlock => s.(table := Captured(s.table, s.lock.pid, s.lock.status), lock := Free)
    case Wait(c) =>
      if c.pid in s.kernel then
        s.(kernel := s.kernel - {c.pid}, owners := s.owners[c := WaitReaped(s.kernel[c.pid].exit.value)])
      else
        s.(owners := s.owners[c := WaitFailed])
    case Collect(c) => AfterCollect(s, c)
  }

  /** The owner's critical section: unregister after an own Wait, otherwise take what the reaper kept. */
  ghost function AfterCollect(s: State, c: Child): State
    requires c in s.owners && (s.owners[c].WaitReaped? || s.owners[c].WaitFailed?)
  {
    var (taken, stashed) := Taken(s.table, c.pid);
    var result := if s.owners[c].WaitReaped? then Some(s.owners[c].status) else stashed;
    s.(table := if s.owners[c].WaitFailed? && stashed.Some? then taken else Unregistered(s.table, c.pid),
       who := s.who - {c.pid},
       owners := s.owners[c := Collected(result)],
       log := s.log + [(c, result)])
  }

  // ----- what every reachable state satisfies

  predicate IsHolding(s: State, pid: Pid) {
    s.lock.Holding? && s.lock.pid == pid
  }

  /** The reaper has taken the child's status, and has it in hand or in the map. */
  ghost predicate WithReaper(s: State, c: Child) {
    && c in s.exits
    && if IsHolding(s, c.pid) then c.pid !in s.table.reaped && s.lock.status == s.exits[c]
       else c.pid in s.table.reaped && s.table.reaped[c.pid] == s.exits[c]
  }

  ghost predicate Untaken(s: State, c: Child) {
    c.pid !in s.table.reaped && !IsHolding(s, c.pid)
  }

  ghost predicate Owns(s: State, c: Child) {
    c.pid in s.who && s.who[c.pid] == c
  }

  ghost predicate InKernel(s: State, c: Child) {
    c.pid in s.kernel && s.kernel[c.pid].child == c
  }

  ghost predicate OwnerOk(s: State, c: Child)
    requires c in s.owners
  {
    match s.owners[c]
    case Starting => s.lock == Forked(c) && InKernel(s, c) && c.pid !in s.who
    case Waiting => Owns(s, c) && if c.pid in s.kernel then InKernel(s, c) && Untaken(s, c) else WithReaper(s, c)
    case WaitReaped(status) =>
      Owns(s, c) && c.pid !in s.kernel && Untaken(s, c) && c in s.exits && status == s.exits[c]
    case WaitFailed => Owns(s, c) && c.pid !in s.kernel && WithReaper(s, c)
    case Collected(result) => c in s.exits && result == Some(s.exits[c])
  }

  ghost predicate ProcOk(s: State, pid: Pid)
    requires pid in s.kernel
  {
    var p := s.kernel[pid];
    && p.child.pid == pid
    && (if p.child in s.exits then p.exit == Some(s.exits[p.child]) else p.exit == None)
    && (p.child in s.owners ==> s.owners[p.child].Starting? || s.owners[p.child].Waiting?)
    && (pid in s.who ==> s.who[pid] == p.child)
  }

  ghost predicate Active(p: Phase) {
    p.Waiting? || p.WaitReaped? || p.WaitFailed?
  }

  ghost predicate EntryOk(s: State, pid: Pid)
    requires pid in s.who
  {
    s.who[pid].pid == pid && s.who[pid] in s.owners && Active(s.owners[s.who[pid]])
  }

  ghost predicate LogOk(s: State) {
    && (forall i :: 0 <= i < |s.log| ==> s.log[i].0 in s.owners && s.owners[s.log[i].0] == Collected(s.log[i].1))
    && (forall i, j :: 0 <= i < j < |s.log| ==> s.log[i].0 != s.log[j].0)
    && forall c :: c in s.owners && s.owners[c].Collected? ==> (c, s.owners[c].result) in s.log
  }

  ghost predicate Inv(s: State) {
    && s.table.supervised == s.who.Keys
    && s.table.reaped.Keys <= s.who.Keys
    && (s.lock.Forked? ==> s.lock.child in s.owners && s.owners[s.lock.child].Starting?)
    && (forall c {:trigger OwnerOk(s, c)} :: c in s.owners ==> OwnerOk(s, c))
    && (forall pid {:trigger ProcOk(s, pid)} :: pid in s.kernel ==> ProcOk(s, pid))
    && (forall pid {:trigger EntryOk(s, pid)} :: pid in s.who ==> EntryOk(s, pid))
    && LogOk(s)
  }

  lemma InitInv(s: State)
    requires Init(s)
    ensures Inv(s)
  {
  }

  lemma StepInv(s: State, a: Action)
    requires Inv(s) && Possible(s, a)
    ensures Inv(Next(s, a))
  {
    var t := Next(s, a);
    forall c | c in t.owners ensures OwnerOk(t, c) {
      OwnerStep(s, a, c);
    }
    forall pid | pid in t.kernel ensures ProcOk(t, pid) {
      ProcStep(s, a, pid);
    }
    forall pid | pid in t.who ensures EntryOk(t, pid) {
      EntryStep(s, a, pid);
    }
    LogStep(s, a);
    TableStep(s, a);
  }

  /** Everything the invariant says about one child and its pid. */
  lemma Known(s: State, c: Child)
    requires Inv(s)
    ensures c in s.owners ==> OwnerOk(s, c)
    ensures c.pid in s.kernel ==> ProcOk(s, c.pid)
    ensures c.pid in s.who ==> EntryOk(s, c.pid)
  {
  }

  lemma ActorKnown(s: State, a: Action)
    requires Inv(s) && Possible(s, a)
    ensures match a
            case Exit(pid, _) => ProcOk(s, pid)
            case SweepOne(pid) => ProcOk(s, pid)
            case Fork(c) => c.pid !in s.who
            case OrphanArrives(c) => c.pid !in s.who
            case RegisterAndUnlock =>
              s.lock.child in s.owners && OwnerOk(s, s.lock.child) && s.owners[s.lock.child].Starting?
            case Wait(c) => OwnerOk(s, c) && (c.pid in s.kernel ==> ProcOk(s, c.pid))
            case Collect(c) => OwnerOk(s, c)
            case _ => true
  {
  }

  lemma OwnerStep(s: State, a: Action, c: Child)
    requires Inv(s) && Possible(s, a) && c in Next(s, a).owners
    ensures OwnerOk(Next(s, a), c)
  {
    hide LogOk, AfterCollect;
    Known(s, c);
    ActorKnown(s, a);
    assert s.table.supervised == s.who.Keys;
    if a.Collect? {
      OwnerAfterCollect(s, a.child, c);
    }
    hide Inv;
  }

  lemma OwnerAfterCollect(s: State, child: Child, c: Child)
    requires Inv(s) && Possible(s, Collect(child)) && c in AfterCollect(s, child).owners
    ensures OwnerOk(AfterCollect(s, child), c)
  {
    Known(s, c);
    Known(s, child);
    hide Inv;
  }

  lemma ProcStep(s: State, a: Action, pid: Pid)
    requires Inv(s) && Possible(s, a) && pid in Next(s, a).kernel
    ensures ProcOk(Next(s, a), pid)
  {
    ActorKnown(s, a);
    if pid in s.kernel {
      assert ProcOk(s, pid);
      Known(s, s.kernel[pid].child);
    }
    hide Inv;
  }

  lemma EntryStep(s: State, a: Action, pid: Pid)
    requires Inv(s) && Possible(s, a) && pid in Next(s, a).who
    ensures EntryOk(Next(s, a), pid)
  {
    ActorKnown(s, a);
    if pid in s.who {
      assert EntryOk(s, pid);
      Known(s, s.who[pid]);
    }
    hide Inv;
  }

  lemma LogStep(s: State, a: Action)
    requires Inv(s) && Possible(s, a)
    ensures LogOk(Next(s, a))
  {
    ActorKnown(s, a);
    assert LogOk(s);
    hide Inv;
    var t := Next(s, a);
    if a.Collect? {
      forall c | c in t.owners && t.owners[c].Collected? ensures (c, t.owners[c].result) in t.log {
        if c == a.child {
          assert t.log[|s.log|] == (c, t.owners[c].result);
        } else {
          assert (c, s.owners[c].result) in s.log;
        }
      }
    }
  }

  lemma TableStep(s: State, a: Action)
    requires Inv(s) && Possible(s, a)
    ensures var t := Next(s, a);
            && t.table.supervised == t.who.Keys
            && t.table.reaped.Keys <= t.who.Keys
            && (t.lock.Forked? ==> t.lock.child in t.owners && t.owners[t.lock.child].Starting?)
  {
    ActorKnown(s, a);
  }

  // ----- runs

  /** Performs the actions in turn. */
  ghost predicate CanRun(s: State, actions: seq<Action>)
    decreases |actions|
  {
    actions == [] || (Possible(s, actions[0]) && CanRun(Next(s, actions[0]), actions[1..]))
  }

  ghost function Run(s: State, actions: seq<Action>): State
    requires CanRun(s, actions)
    decreases |actions|
  {
    if actions == [] then s else Run(Next(s, actions[0]), actions[1..])
  }

  ghost predicate Reachable(s: State) {
    exists start, actions :: Init(start) && CanRun(start, actions) && Run(start, actions) == s
  }

  lemma {:induction false} RunInv(s: State, actions: seq<Action>)
    requires Inv(s) && CanRun(s, actions)
    ensures Inv(Run(s, actions))
    decreases |actions|
  {
    if actions != [] {
      StepInv(s, actions[0]);
      RunInv(Next(s, actions[0]), actions[1..]);
    }
  }

  lemma ReachableInv(s: State)
    requires Reachable(s)
    ensures Inv(s)
  {
    var start, actions :| Init(start) && CanRun(start, actions) && Run(start, actions) == s;
    InitInv(start);
    RunInv(start, actions);
  }

  /**
   * In every interleaving an owner gets the status its child really exited with, at most once; the
   * branch for an unavailable status is never taken.
   */
  lemma ExactDelivery(s: State)
    requires Reachable(s)
    ensures forall i :: 0 <= i < |s.log| ==> s.log[i].0 in s.exits && s.log[i].1 == Some(s.exits[s.log[i].0])
    ensures forall i, j :: 0 <= i < j < |s.log| ==> s.log[i].0 != s.log[j].0
    ensures forall c :: c in s.owners && s.owners[c].Collected? ==>
                         c in s.exits && (c, Some(s.exits[c])) in s.log
  {
    ReachableInv(s);
    assert LogOk(s);
    forall i | 0 <= i < |s.log| ensures s.log[i].0 in s.exits && s.log[i].1 == Some(s.exits[s.log[i].0]) {
      Known(s, s.log[i].0);
    }
    forall c | c in s.owners && s.owners[c].Collected? ensures c in s.exits && (c, Some(s.exits[c])) in s.log {
      Known(s, c);
    }
  }

  /** Once no child is being started or waited for, both maps are empty. */
  lemma NothingLeftBehind(s: State)
    requires Reachable(s) && forall c :: c in s.owners ==> s.owners[c].Collected?
    ensures s.table == Table({}, map[])
  {
    ReachableInv(s);
    forall pid ensures pid !in s.who {
      assert pid in s.who ==> EntryOk(s, pid);
    }
    assert s.who == map[];
  }

  /** The step by which the lock holder can always give the lock back. */
  ghost function Release(s: State): Action
    requires !s.lock.Free?
  {
    match s.lock
    case Starter => StartFails
    case Forked(_) => RegisterAndUnlock
    case Sweeping => SweepEmpty
    case Holding(_, _) => StashAndUnlock
  }

  lemma ReleaseFrees(s: State, c: Child)
    requires Inv(s) && !s.lock.Free? && c in s.owners && !s.owners[c].Collected?
    ensures Possible(s, Release(s)) && Inv(Next(s, Release(s)))
    ensures var t := Next(s, Release(s));
            t.lock.Free? && c in t.owners && !t.owners[c].Collected? && t.exits == s.exits
  {
    StepInv(s, Release(s));
    hide Inv;
  }

  lemma CollectWhenFree(s: State, c: Child) returns (actions: seq<Action>)
    requires Inv(s) && s.lock.Free? && c in s.owners && c in s.exits && !s.owners[c].Collected?
    ensures |actions| <= 2 && CanRun(s, actions)
    ensures c in Run(s, actions).owners && Run(s, actions).owners[c] == Collected(Some(s.exits[c]))
  {
    Known(s, c);
    hide Inv;
    if s.owners[c].Waiting? {
      RunTwo(s, Wait(c), Collect(c));
      actions := [Wait(c), Collect(c)];
    } else {
      RunOne(s, Collect(c));
      actions := [Collect(c)];
    }
  }

  /** No exited child is ever stuck: its owner can collect the status within three steps. */
  lemma CanAlwaysCollect(s: State, c: Child) returns (actions: seq<Action>)
    requires Reachable(s) && c in s.owners && c in s.exits && !s.owners[c].Collected?
    ensures |actions| <= 3 && CanRun(s, actions)
    ensures c in Run(s, actions).owners && Run(s, actions).owners[c] == Collected(Some(s.exits[c]))
  {
    ReachableInv(s);
    if s.lock.Free? {
      actions := CollectWhenFree(s, c);
    } else {
      ReleaseFrees(s, c);
      var rest := CollectWhenFree(Next(s, Release(s)), c);
      actions := [Release(s)] + rest;
      assert actions[1..] == rest;
    }
  }

  lemma RunOne(s: State, a: Action)
    requires Possible(s, a)
    ensures CanRun(s, [a]) && Run(s, [a]) == Next(s, a)
  {
    assert [a][1..] == [];
  }

  lemma RunTwo(s: State, a: Action, b: Action)
    requires Possible(s, a) && Possible(Next(s, a), b)
    ensures CanRun(s, [a, b]) && Run(s, [a, b]) == Next(Next(s, a), b)
  {
    assert [a, b][1..] == [b];
    RunOne(Next(s, a), b);
  }

  // ----- what the owner makes of the status

  /** ProcessState.ExitCode: -1 for anything but a normal exit. */
  function ProcessStateExitCode(status: WaitStatus): (code: int)
    ensures code == if status.Exited? then status.code else -1
  {
    match status
    case Exited(code) => code
    case Signaled(_) => -1
  }

  /** The switch of monitorInstance: the exit code does not depend on who won the race. */
  method RecoverExitCode(processState: Option<WaitStatus>, registry: Registry, pid: Pid) returns (exitCode: int)
    modifies registry
    ensures var status := if processState.Some? then processState
                          else if pid in old(registry.reaped) then Some(old(registry.reaped[pid])) else None;
            exitCode == if status.Some? && status.value.Exited? then status.value.code else -1
    ensures registry.Maps() == Unregistered(old(registry.Maps()), pid)
  {
    if processState.Some? {
      exitCode := ProcessStateExitCode(processState.value);
      registry.UnregisterSupervised(pid);
    } else {
      var ws := registry.TakeReapedStatus(pid);
      if ws.Some? {
        if ws.value.Exited? {
          exitCode := ws.value.code;
        } else {
          exitCode := -1;
        }
      } else {
        exitCode := -1;
        registry.UnregisterSupervised(pid);
      }
    }
  }

  /** What else exec's Wait can report about a child that exited cleanly. */
  datatype Trouble = NoTrouble | OutputHeldOpen | OutputFailed

  datatype RunError = NotClean(status: WaitStatus) | OutputError | StatusUnavailable

  /** statusToError. */
  function StatusToError(status: WaitStatus): (error: Option<RunError>)
    ensures error == if status == Exited(0) then None else Some(NotClean(status))
  {
    match status
    case Exited(code) => if code == 0 then None else Some(NotClean(status))
    case Signaled(_) => Some(NotClean(status))
  }

  /**
   * waitSupervised after its Wait: a clean exit is a success and any other exit an error with its
   * status, whoever collected it. Only trouble with the output of the own Wait makes a difference.
   */
  method WaitSupervised(processState: Option<WaitStatus>, trouble: Trouble, registry: Registry, pid: Pid)
    returns (error: Option<RunError>)
    modifies registry
    ensures processState.Some? ==>
              error == if processState.value == Exited(0) && trouble.OutputFailed? then Some(OutputError)
                       else StatusToError(processState.value)
    ensures processState.None? ==>
              error == if pid in old(registry.reaped) then StatusToError(old(registry.reaped[pid]))
                       else Some(StatusUnavailable)
    ensures registry.Maps() == Unregistered(old(registry.Maps()), pid)
  {
    if processState.Some? {
      registry.UnregisterSupervised(pid);
      var waitErr := if processState.value != Exited(0) then Some(NotClean(processState.value))
                     else if trouble.NoTrouble? then None else Some(OutputError);
      if trouble.OutputHeldOpen? && processState.value == Exited(0) {
        return None;
      }
      return waitErr;
    }
    var ws := registry.TakeReapedStatus(pid);
    if ws.Some? {
      return StatusToError(ws.value);
    }
    registry.UnregisterSupervised(pid);
    return Some(StatusUnavailable);
  }
}
