/**
 * Manager.ReloadConfig with its helpers (internal/process/manager_config.go), waitForDependencies,
 * registerScheduledProcess and startRegularProcess (internal/process/manager_lifecycle.go).
 *
 * What the world answers is an input: within one phase of a reload every name is stopped, waited
 * for and started at most once, so a set of names per kind of answer covers every behaviour.
 */
module Reload {
  import opened Sequences
  import opened DependencyGraph
  import opened StartupOrder
  import Shutdown

  /** Names whose Stop fails, whose dependencies do not get ready, and whose start or registration fails. */
  datatype Answers = Answers(stopRefused: set<string>, notReady: set<string>, startRefused: set<string>)

  datatype Call =
    | Unregister(name: string)
    | Stop(name: string)
    | Register(name: string)
    | Supervise(name: string)

  datatype Loaded = LoadError | NewConfig(processes: Processes)

  datatype Outcome =
    | NotLoaded
    | Reloaded
    | StopAborted(failures: nat)
    | RolledBack(failures: nat)

  // ----- what a configuration asks for

  function Supervised(c: Processes): Processes {
    map n | n in c && c[n].enabled && !c[n].scheduled :: c[n]
  }

  function Jobs(c: Processes): Processes {
    map n | n in c && c[n].enabled && c[n].scheduled :: c[n]
  }

  /** Names the two configurations define differently, or only one of them defines. */
  function Touched(c: Processes, d: Processes): set<string> {
    set n | n in c.Keys + d.Keys && !(n in c && n in d && c[n] == d[n])
  }

  /** Every running process is the one its supervisor entry stands for. */
  ghost predicate NoOrphans(processes: Processes, live: Processes) {
    forall n :: n in live ==> n in processes && processes[n] == live[n]
  }

  ghost predicate OnlyCalls(calls: seq<Call>, from: nat, names: set<string>) {
    forall i :: from <= i < |calls| ==> calls[i].name in names
  }

  /** The names put under a supervisor by the calls from `from` on. */
  ghost function SupervisedBy(calls: seq<Call>, from: nat): set<string> {
    set i | from <= i < |calls| && calls[i].Supervise? :: calls[i].name
  }

  /** Supervisor entries, scheduled jobs and running processes, each with the definition it stands for. */
  datatype State = State(processes: Processes, jobs: Processes, live: Processes)

  ghost predicate Sound(s: State) {
    NoOrphans(s.processes, s.live)
  }

  /** Clearing the jobs of `names` and stopping those of them that do not refuse. */
  ghost function AfterStops(s: State, names: set<string>, refused: set<string>): State {
    State(s.processes - (names - refused), s.jobs - names, s.live - (names - refused))
  }

  /** The state a configuration asks for, without the names in `missing`; `live` is what happens to run. */
  ghost predicate Wanted(s: State, c: Processes, missing: set<string>) {
    s.processes == Supervised(c) - missing && s.jobs == Jobs(c) - missing && Sound(s)
  }

  class Manager {
    var config: Processes
    var processes: Processes
    var jobs: Processes
    var live: Processes
    var calls: seq<Call>

    constructor (config: Processes, processes: Processes, jobs: Processes, live: Processes)
      ensures this.config == config && this.processes == processes && this.jobs == jobs && this.live == live
      ensures calls == []
    {
      this.config, this.processes, this.jobs, this.live, calls := config, processes, jobs, live, [];
    }

    ghost function Now(): State
      reads this
    {
      State(processes, jobs, live)
    }

    /** Supervisors are exactly the enabled unscheduled processes, jobs exactly the enabled scheduled ones. */
    ghost predicate Consistent()
      reads this
    {
      Wanted(Now(), config, {})
    }

    method UnregisterScheduled(name: string)
      modifies this`jobs, this`calls
      ensures jobs == old(jobs) - {name} && calls == old(calls) + [Unregister(name)]
    {
      jobs := jobs - {name};
      calls := calls + [Unregister(name)];
    }

    /** sup.Stop and, if it succeeds, dropping the supervisor entry. */
    method StopSupervisor(name: string, refused: set<string>) returns (ok: bool)
      requires name in processes
      modifies this`processes, this`live, this`calls
      ensures ok <==> name !in refused
      ensures processes == old(processes) - if ok then {name} else {}
      ensures live == old(live) - if ok then {name} else {}
      ensures calls == old(calls) + [Stop(name)]
    {
      calls := calls + [Stop(name)];
      ok := name !in refused;
      if ok {
        processes, live := processes - {name}, live - {name};
      }
      assert !ok ==> processes - {} == processes && live - {} == live;
    }

    /** Every listed dependency must have a supervisor, and become ready in time. */
    method WaitForDependencies(name: string, dependencies: seq<string>, notReady: set<string>) returns (ok: bool)
      ensures ok <==> (forall d :: d in dependencies ==> d in processes) && (dependencies == [] || name !in notReady)
    {
      for i := 0 to |dependencies|
        invariant forall k :: 0 <= k < i ==> dependencies[k] in processes
        invariant i == 0 || name !in notReady
      {
        if dependencies[i] !in processes || name in notReady {
          return false;
        }
      }
      return true;
    }

    /** A refused registration leaves no job; so does one for a name that already has a job. */
    method RegisterScheduled(name: string, def: Process, refused: set<string>) returns (ok: bool)
      modifies this`jobs, this`calls
      ensures ok <==> name !in old(jobs) && name !in refused
      ensures jobs == if ok then old(jobs)[name := def] else old(jobs)
      ensures calls == old(calls) + [Register(name)]
    {
      calls := calls + [Register(name)];
      ok := name !in jobs && name !in refused;
      if ok {
        jobs := jobs[name := def];
      }
    }

    /** The entry is written before the start is attempted, and stays there if it fails. */
    method StartRegular(name: string, def: Process, refused: set<string>) returns (ok: bool)
      modifies this`processes, this`live, this`calls
      ensures ok <==> !def.startsRunning || name !in refused
      ensures processes == old(processes)[name := def]
      ensures live == if ok && def.startsRunning then old(live)[name := def] else old(live)
      ensures calls == old(calls) + [Supervise(name)]
    {
      calls := calls + [Supervise(name)];
      processes := processes[name := def];
      ok := true;
      if def.startsRunning {
        ok := name !in refused;
        if ok {
          live := live[name := def];
        }
      }
    }

    /** Clears a name's job and stops its supervisor; `failed` if the supervisor would not stop. */
    method StopOnce(name: string, refused: set<string>) returns (failed: bool)
      requires Sound(Now())
      modifies this`processes, this`jobs, this`live, this`calls
      ensures Now() == AfterStops(old(Now()), {name}, refused) && Sound(Now())
      ensures failed <==> name in old(processes) && name in refused
      ensures LogGrows(old(calls), calls, {name}) && SupervisedBy(calls, |old(calls)|) == {}
    {
      failed := false;
      UnregisterScheduled(name);
      if name in processes {
        var ok := StopSupervisor(name, refused);
        failed := !ok;
      }
      assert {name} - refused == if name in refused then {} else {name};
    }

    /** stopReloadProcesses: stops `names` in shutdown order and returns those that would not stop. */
    method StopReload(names: set<string>, refused: set<string>) returns (failed: set<string>)
      requires Consistent()
      modifies this`processes, this`jobs, this`live, this`calls
      ensures Now() == AfterStops(old(Now()), names, refused) && Sound(Now())
      ensures failed == names * refused * old(processes).Keys
      ensures StartOrderExists(config) ==> StopsInOrder(config, calls, |old(calls)|)
      ensures LogGrows(old(calls), calls, names) && SupervisedBy(calls, |old(calls)|) == {}
    {
      var order := GetShutdownOrder(config);
      assert Elems(order[..0]) == {} && StopsFollow(config, order, 0, calls, calls);
      hide AfterStops, Sound, Elems, SupervisedBy, LogGrows, StopsFollow, StartOrderExists;
      failed := {};
      ghost var done := {};
      ghost var start, log := Now(), calls;
      StopNone(start, refused, names, log);
      for i := 0 to |order|
        invariant done == Elems(order[..i]) * names
        invariant Now() == AfterStops(start, done, refused) && Sound(Now())
        invariant failed == done * refused * start.processes.Keys
        invariant LogGrows(log, calls, names) && SupervisedBy(calls, |log|) == {}
        invariant StopsFollow(config, order, i, calls, log)
      {
        ElemsTake(order, i);
        StopsFollowOn(config, order, i, log, calls, calls);
        if order[i] in names {
          ghost var calls' := calls;
          var wouldNot := StopOnce(order[i], refused);
          LogGrowsOn(log, calls', calls, {order[i]}, names);
          StopsFollowOn(config, order, i, log, calls', calls);
          StopOneMore(start, done, refused, order[i]);
          if wouldNot {
            failed := failed + {order[i]};
          }
          done := done + {order[i]};
        }
      }
      assert order[..|order|] == order;
      StoppedAll(config, start, order, names, done, refused);
      StopsFollowed(config, order, calls, log);
    }

    /**
     * Brings up one enabled process: a job is registered, any other process gets a supervisor entry
     * once its dependencies are ready. A reload makes jobs wait as well, a rollback does not.
     */
    method BringUp(name: string, jobsWait: bool, answers: Answers) returns (ok: bool, ghost entered: bool)
      requires IsEnabled(config, name) && Sound(Now()) && name !in processes && name !in jobs
      modifies this`processes, this`jobs, this`live, this`calls
      ensures processes ==
              if entered && !config[name].scheduled then old(processes)[name := config[name]] else old(processes)
      ensures jobs == if entered && config[name].scheduled then old(jobs)[name := config[name]] else old(jobs)
      ensures live ==
              if ok && Runs(config, name) then old(live)[name := config[name]] else old(live)
      ensures Sound(Now()) && (ok ==> entered)
      ensures jobsWait ==>
                && (ok <==> DepsAmong(config[name], old(processes).Keys) && Granted(answers, name, config[name]))
                && (entered <==> DepsAmong(config[name], old(processes).Keys) && Admitted(answers, name, config[name]))
      ensures !jobsWait ==>
                && (ok <==> BackUp(config[name], name, old(processes).Keys, answers))
                && (entered <==> BackIn(config[name], name, old(processes).Keys, answers))
      ensures LogGrows(old(calls), calls, {name})
      ensures SupervisedBy(calls, |old(calls)|) == if entered && !config[name].scheduled then {name} else {}
    {
      var def := config[name];
      entered := false;
      if jobsWait || !def.scheduled {
        ok := WaitForDependencies(name, def.dependsOn, answers.notReady);
        if !ok {
          return;
        }
      }
      if def.scheduled {
        ok := RegisterScheduled(name, def, answers.startRefused);
        entered := ok;
      } else {
        ok := StartRegular(name, def, answers.startRefused);
        entered := true;
        assert calls[|old(calls)|] == Supervise(name);
      }
    }

    /** startReloadProcesses: brings up `names` in start order, giving up at the first failure. */
    method StartReload(names: set<string>, answers: Answers) returns (ok: bool, ghost part: set<string>)
      requires Wanted(Now(), config, names)
      modifies this`processes, this`jobs, this`live, this`calls
      ensures part == Entered(config, names, answers) && part <= names && Wanted(Now(), config, names - part)
      ensures ok ==> Wanted(Now(), config, {}) && AllRun(Now(), config, names)
      ensures ok <==> StartOrderExists(config) && CanStart(config, names, answers)
      ensures SameBeside(old(live), live, names)
      ensures LogGrows(old(calls), calls, names) && StartsInOrder(config, calls, |old(calls)|)
      ensures SupervisedBy(calls, |old(calls)|) == part * Supervised(config).Keys
    {
      part := {};
      ghost var log, was := calls, live;
      SameBesideSelf(was, names);
      StartNone(names, log);
      var startup := GetStartupOrder(config);
      if startup.Refused? {
        return false, part;
      }
      var order := startup.order;
      StartingStarts(Now(), calls, config, order, names, answers);
      hide IsTopological, Wanted, SupervisedBy, LogGrows, CanStart, Supervised, StartOrderExists, AllRun, SameBeside,
           Starting, GaveUp, Entered;
      assert StartsFollow(config, order, 0, calls, log);
      hide StartsFollow, StartsInOrder;
      for i := 0 to |order|
        invariant Starting(Now(), calls, config, order, i, names, part, answers, was, log)
        invariant StartsFollow(config, order, i, calls, log)
      {
        ghost var calls' := calls;
        ok, part := StartOne(order, i, names, answers, part, was, log);
        StartsFollowOn(config, order, i, log, calls', calls);
        if !ok {
          HasGivenUp(Now(), calls, config, names, part, answers, was, log);
          StartsFollowed(config, order, i + 1, calls, log);
          return;
        }
      }
      AllStarting(Now(), calls, config, order, names, part, answers, was, log);
      StartsFollowed(config, order, |order|, calls, log);
      return true, part;
    }

    /** One round of startReloadProcesses. */
    method StartOne(order: seq<string>, i: nat, names: set<string>, answers: Answers, ghost part0: set<string>,
                    ghost was: Processes, ghost log: seq<Call>)
      returns (ok: bool, ghost part: set<string>)
      requires IsTopological(StartGraph(config), order) && i < |order|
      requires Starting(Now(), calls, config, order, i, names, part0, answers, was, log)
      modifies this`processes, this`jobs, this`live, this`calls
      ensures ok ==> Starting(Now(), calls, config, order, i + 1, names, part, answers, was, log)
      ensures !ok ==> GaveUp(Now(), calls, config, names, part, answers, was, log)
      ensures LogGrows(old(calls), calls, {order[i]})
    {
      part := part0;
      var name := order[i];
      hide IsTopological, Starting, GaveUp;
      if name !in names {
        StartingSkips(Now(), calls, config, order, i, names, part, answers, was, log);
        StartNone({name}, calls);
        return true, part;
      }
      BeforeStart(Now(), calls, config, order, i, names, part, answers, was, log);
      ghost var calls', before := calls, Now();
      ghost var entered;
      hide Sound, LogGrows, SupervisedBy, DepsAmong, Granted, Admitted;
      ok, entered := BringUp(name, true, answers);
      StartedOne(before, calls', Now(), calls, config, order, i, names, part, answers, was, log, ok, entered);
      if entered {
        part := part + {name};
      }
    }

    /** The first half of rollbackReload: stops every touched name once, in shutdown order where there is one. */
    method StopTouched(touched: set<string>, refused: set<string>) returns (unstoppable: set<string>)
      requires Sound(Now())
      modifies this`processes, this`jobs, this`live, this`calls
      ensures Now() == AfterStops(old(Now()), touched, refused) && Sound(Now())
      ensures unstoppable == touched * refused * old(processes).Keys
      ensures StartOrderExists(config) ==> StopsInOrder(config, calls, |old(calls)|)
      ensures LogGrows(old(calls), calls, touched) && SupervisedBy(calls, |old(calls)|) == {}
    {
      var order := GetShutdownOrder(config);
      assert StopsFollow(config, order, 0, calls, calls);
      unstoppable := {};
      var stopped := {};
      ghost var start, log := Now(), calls;
      StopNone(start, refused, touched, log);
      hide AfterStops, Sound, SupervisedBy, LogGrows, StopsFollow, StartOrderExists, StopsInOrder;
      for i := 0 to |order|
        invariant stopped <= touched && Now() == AfterStops(start, stopped, refused) && Sound(Now())
        invariant unstoppable == stopped * refused * start.processes.Keys
        invariant LogGrows(log, calls, touched) && SupervisedBy(calls, |log|) == {}
        invariant StopsFollow(config, order, i, calls, log)
        invariant forall j :: 0 <= j < i && order[j] in touched ==> order[j] in stopped
      {
        StopsFollowOn(config, order, i, log, calls, calls);
        if order[i] in touched && order[i] !in stopped {
          ghost var calls' := calls;
          stopped, unstoppable := StopAnother(order[i], refused, touched, stopped, unstoppable, start, log);
          StopsFollowOn(config, order, i, log, calls', calls);
        }
      }
      StopsFollowed(config, order, calls, log);
      var names := touched;
      while names != {}
        invariant names <= touched && touched - names <= stopped <= touched
        invariant forall j :: 0 <= j < |order| && order[j] in touched ==> order[j] in stopped
        invariant StartOrderExists(config) ==> StopsInOrder(config, calls, |log|)
        invariant Now() == AfterStops(start, stopped, refused) && Sound(Now())
        invariant unstoppable == stopped * refused * start.processes.Keys
        invariant LogGrows(log, calls, touched) && SupervisedBy(calls, |log|) == {}
      {
        var name :| name in names;
        names := names - {name};
        if name !in stopped {
          ghost var calls' := calls;
          stopped, unstoppable := StopAnother(name, refused, touched, stopped, unstoppable, start, log);
          StopsBesides(config, name, |log|, calls', calls);
        }
      }
      assert stopped == touched;
    }

    /** stopOnce of rollbackReload, for a name not stopped yet. */
    method StopAnother(name: string, refused: set<string>, ghost touched: set<string>, stopped0: set<string>,
                       unstoppable0: set<string>, ghost start: State, ghost log: seq<Call>)
      returns (stopped: set<string>, unstoppable: set<string>)
      requires name in touched && Now() == AfterStops(start, stopped0, refused) && Sound(Now())
      requires unstoppable0 == stopped0 * refused * start.processes.Keys
      requires LogGrows(log, calls, touched) && SupervisedBy(calls, |log|) == {}
      modifies this`processes, this`jobs, this`live, this`calls
      ensures stopped == stopped0 + {name} && Now() == AfterStops(start, stopped, refused) && Sound(Now())
      ensures unstoppable == stopped * refused * start.processes.Keys
      ensures LogGrows(log, calls, touched) && SupervisedBy(calls, |log|) == {} && LogGrows(old(calls), calls, {name})
    {
      hide AfterStops, Sound, SupervisedBy, LogGrows;
      stopped, unstoppable := stopped0 + {name}, unstoppable0;
      var wouldNot := StopOnce(name, refused);
      LogGrowsOn(log, old(calls), calls, {name}, touched);
      StopOneMore(start, stopped0, refused, name);
      if wouldNot {
        unstoppable := unstoppable + {name};
      }
    }

    /** rollbackReload: returns how many processes it could not bring back, as the source counts them. */
    method Rollback(oldCfg: Processes, touched: set<string>, answers: Answers) returns (failures: nat)
      requires Sound(Now()) && Beside(Now(), oldCfg, touched)
      modifies this`config, this`processes, this`jobs, this`live, this`calls
      ensures config == oldCfg && Sound(Now()) && Beside(Now(), oldCfg, touched)
      ensures StartOrderExists(oldCfg) && failures == 0 ==> Wanted(Now(), oldCfg, {}) && AllRun(Now(), oldCfg, touched)
      ensures StartOrderExists(oldCfg) ==>
                var unstoppable := touched * answers.stopRefused * old(processes).Keys;
                && Settled(Now(), old(Now()), oldCfg, touched, unstoppable, touched * Enabled(oldCfg), answers,
                           failures)
                && (failures == 0 <==> unstoppable == {} && CanRestore(oldCfg, touched, answers))
      ensures SameBeside(old(live), live, touched)
      ensures !StartOrderExists(oldCfg) ==> failures == |touched * Enabled(oldCfg)|
      ensures !StartOrderExists(oldCfg) ==> Now() == AfterStops(old(Now()), touched, answers.stopRefused)
      ensures !StartOrderExists(oldCfg) ==> SupervisedBy(calls, |old(calls)|) == {}
      ensures LogGrows(old(calls), calls, touched)
    {
      var unstoppable := StopTouched(touched, answers.stopRefused);
      StoppedBeside(old(Now()), oldCfg, touched, answers.stopRefused, unstoppable);
      StoppedLive(old(Now()), touched, answers.stopRefused);
      config := oldCfg;
      var startup := GetStartupOrder(config);
      if startup.Refused? {
        return |touched * Enabled(oldCfg)|;
      }
      ghost var calls', live' := calls, live;
      AllStopped(old(Now()), touched, answers.stopRefused, oldCfg, answers);
      failures := Restore(startup.order, touched, unstoppable, answers, old(Now()));
      SameBesideOn(old(live), live', live, touched, touched);
      LogGrowsOn(old(calls), calls', calls, touched, touched);
    }

    /** The second half of rollbackReload: brings the touched processes of the old configuration back up. */
    method Restore(order: seq<string>, touched: set<string>, unstoppable: set<string>, answers: Answers,
                   ghost base: State)
      returns (failures: nat)
      requires IsTopological(StartGraph(config), order)
      requires Sound(Now()) && Beside(Now(), config, touched) && Cleared(Now(), touched, unstoppable)
      requires unstoppable == {} ==> Wanted(Now(), config, touched)
      requires Settled(Now(), base, config, touched, unstoppable, {}, answers, |unstoppable|)
      modifies this`processes, this`jobs, this`live, this`calls
      ensures Settled(Now(), base, config, touched, unstoppable, touched * Enabled(config), answers, failures)
      ensures failures == 0 <==> unstoppable == {} && CanRestore(config, touched, answers)
      ensures Sound(Now()) && Beside(Now(), config, touched) && SameBeside(old(live), live, touched)
      ensures failures == 0 ==> Wanted(Now(), config, {}) && AllRun(Now(), config, touched)
      ensures LogGrows(old(calls), calls, touched) && StartsInOrder(config, calls, |old(calls)|)
    {
      failures := |unstoppable|;
      ghost var log, was := calls, live;
      RestoringStarts(Now(), calls, config, touched, unstoppable);
      assert Turns(order, 0, touched) == {};
      hide IsTopological, Turns, Restoring, Sound, Wanted, Beside, Cleared, LogGrows, AllRun, SameBeside, Settled,
           CanRestore;
      assert StartsFollow(config, order, 0, calls, log);
      hide StartsFollow, StartsInOrder;
      for i := 0 to |order|
        invariant StartsFollow(config, order, i, calls, log)
        invariant Restoring(Now(), calls, config, touched, unstoppable, Turns(order, i, touched), failures, was, log)
        invariant Settled(Now(), base, config, touched, unstoppable, Turns(order, i, touched), answers, failures)
      {
        ghost var calls' := calls;
        failures := RestoreNext(order, i, touched, unstoppable, answers, failures, base, was, log);
        StartsFollowOn(config, order, i, log, calls', calls);
      }
      StartsFollowed(config, order, |order|, calls, log);
      AllRestored(config, order, touched, unstoppable, failures, Now(), calls, was, log);
      AllSettled(config, order, touched, unstoppable, answers, failures, Now(), base);
    }

    /** One round of the loop that restores. */
    method RestoreNext(order: seq<string>, i: nat, touched: set<string>, unstoppable: set<string>, answers: Answers,
                       failures0: nat, ghost base: State, ghost was: Processes, ghost log: seq<Call>)
      returns (failures: nat)
      requires IsTopological(StartGraph(config), order) && i < |order|
      requires Restoring(Now(), calls, config, touched, unstoppable, Turns(order, i, touched), failures0, was, log)
      requires Settled(Now(), base, config, touched, unstoppable, Turns(order, i, touched), answers, failures0)
      modifies this`processes, this`jobs, this`live, this`calls
      ensures Restoring(Now(), calls, config, touched, unstoppable, Turns(order, i + 1, touched), failures, was, log)
      ensures Settled(Now(), base, config, touched, unstoppable, Turns(order, i + 1, touched), answers, failures)
      ensures LogGrows(old(calls), calls, {order[i]})
    {
      failures := failures0;
      var name := order[i];
      TurnsNext(order, i, touched);
      ghost var done := Turns(order, i, touched);
      StartNone({name}, calls);
      hide IsTopological, Turns, Restoring, Settled, LogGrows;
      if name !in touched {
        return;
      }
      if name in unstoppable {
        RestoringSkips(Now(), calls, config, touched, unstoppable, done, failures, was, log, name);
        SettledSkips(Now(), base, config, touched, unstoppable, done, answers, failures, name);
        return;
      }
      BeforeRestore(config, order, i, touched, unstoppable, failures, Now(), calls, was, log);
      NoneDependsOnLater(config, order, i, touched);
      failures := RestoreOne(name, touched, unstoppable, answers, failures, done, base, was, log);
    }

    method RestoreOne(name: string, touched: set<string>, unstoppable: set<string>, answers: Answers, failures0: nat,
                      ghost done: set<string>, ghost base: State, ghost was: Processes, ghost log: seq<Call>)
      returns (failures: nat)
      requires name in touched && name !in done && done <= touched && name !in unstoppable
      requires Settled(Now(), base, config, touched, unstoppable, done, answers, failures0)
      requires NotNeededBy(config, name, done + {name})
      requires IsEnabled(config, name) && name !in processes && name !in jobs
      requires Restoring(Now(), calls, config, touched, unstoppable, done, failures0, was, log)
      modifies this`processes, this`jobs, this`live, this`calls
      ensures Restoring(Now(), calls, config, touched, unstoppable, done + {name}, failures, was, log)
      ensures Settled(Now(), base, config, touched, unstoppable, done + {name}, answers, failures)
      ensures LogGrows(old(calls), calls, {name})
    {
      hide Settled, BackUp, BackIn, NotNeededBy, Sound, Wanted, Beside, Cleared, LogGrows, SupervisedBy, AllRun,
           SameBeside;
      ghost var calls', before := calls, Now();
      var ok;
      ghost var entered;
      ok, entered := BringUp(name, false, answers);
      LogGrowsOn(log, calls', calls, {name}, touched);
      RestoredOne(config, before, Now(), touched, unstoppable, done, name, entered);
      RunsOneMore(config, before, Now(), touched, done, name, ok);
      SameBesideOn(was, before.live, live, touched, touched);
      failures := if ok then failures0 else failures0 + 1;
      SettledOne(config, before, Now(), base, touched, unstoppable, done, answers, failures0, name, ok, entered);
    }

    /**
     * ReloadConfig. Success puts the manager in exactly the state the new configuration asks for, with
     * everything started running; an error whose rollback reports no failure puts back the old one, if
     * the old configuration had a start order. If it had none, the old processes are back exactly when
     * no supervisor entered by the failed start refuses to stop. Nothing outside the touched names is
     * called at all.
     */
    method ReloadConfig(loaded: Loaded, reload: Answers, rollback: Answers) returns (r: Outcome)
      requires Consistent()
      modifies this`config, this`processes, this`jobs, this`live, this`calls
      ensures Sound(Now())
      ensures loaded.LoadError? ==> r.NotLoaded? && config == old(config) && Now() == old(Now()) && calls == old(calls)
      ensures loaded.NewConfig? ==> !r.NotLoaded?
      ensures loaded.NewConfig? ==> LogGrows(old(calls), calls, Touched(old(config), loaded.processes))
      ensures loaded.NewConfig? ==> SameBeside(old(live), live, Touched(old(config), loaded.processes))
      ensures r.Reloaded? ==>
                config == loaded.processes && Consistent() && AllRun(Now(), config, ToStart(old(config), config))
      ensures r.StopAborted? || r.RolledBack? ==>
                config == old(config) && Beside(Now(), config, Touched(config, loaded.processes))
      ensures (r.StopAborted? || r.RolledBack?) && r.failures == 0 && StartOrderExists(old(config)) ==>
                && processes == old(processes) && jobs == old(jobs)
                && AllRun(Now(), config, Touched(config, loaded.processes))
      ensures r.StopAborted? && StartOrderExists(old(config)) ==>
                var stopSet := ToStart(loaded.processes, old(config));
                var unstoppable := stopSet * reload.stopRefused * old(processes).Keys * rollback.stopRefused;
                && Settled(Now(), AfterStops(old(Now()), stopSet, reload.stopRefused), config, stopSet, unstoppable,
                           stopSet * Enabled(config), rollback, r.failures)
                && (r.failures == 0 <==> unstoppable == {} && CanRestore(config, stopSet, rollback))
      ensures r.RolledBack? && StartOrderExists(old(config)) ==>
                var touched := Touched(old(config), loaded.processes);
                var unstoppable := Entered(loaded.processes, ToStart(old(config), loaded.processes), reload)
                                   * Supervised(loaded.processes).Keys * rollback.stopRefused;
                && RolledBackFrom(HalfStarted(old(config), loaded.processes, reload), Now(), config, touched,
                                  unstoppable, rollback, r.failures)
                && (r.failures == 0 <==> unstoppable == {} && CanRestore(config, touched, rollback))
      ensures r.StopAborted? && !StartOrderExists(old(config)) ==>
                r.failures == |ToStart(loaded.processes, old(config)) * Enabled(old(config))| > 0
      ensures r.RolledBack? && !StartOrderExists(old(config)) ==>
                && r.failures == |Touched(old(config), loaded.processes) * Enabled(old(config))|
                && processes == HalfStarted(old(config), loaded.processes, reload)
                                - (Touched(old(config), loaded.processes) - rollback.stopRefused)
      ensures r.RolledBack? && r.failures == 0 && !StartOrderExists(old(config)) ==>
                (processes == old(processes) && jobs == old(jobs) <==>
                 Entered(loaded.processes, ToStart(old(config), loaded.processes), reload)
                 * Supervised(loaded.processes).Keys !! rollback.stopRefused)
      ensures r.StopAborted? <==>
              loaded.NewConfig?
              && !(ToStart(loaded.processes, old(config)) * reload.stopRefused !! old(processes).Keys)
      ensures loaded.NewConfig? ==>
                (r.Reloaded? <==>
                 && ToStart(loaded.processes, old(config)) * reload.stopRefused !! old(processes).Keys
                 && StartOrderExists(loaded.processes)
                 && CanStart(loaded.processes, ToStart(old(config), loaded.processes), reload))
    {
      if loaded.LoadError? {
        return NotLoaded;
      }
      var oldCfg, newCfg := config, loaded.processes;
      var stopSet, startSet := ToStart(newCfg, oldCfg), ToStart(oldCfg, newCfg);
      var touched := Touched(oldCfg, newCfg);
      TouchedSplits(oldCfg, newCfg);
      ghost var start, log := Now(), calls;
      var failed := StopReload(stopSet, reload.stopRefused);
      ghost var log1 := calls;
      ghost var live1 := live;
      SameBesideSelf(start.live, touched);
      StoppedLive(start, stopSet, reload.stopRefused);
      SameBesideOn(start.live, start.live, live1, stopSet, touched);
      if failed != {} {
        StopFailed(oldCfg, start, stopSet, touched, reload.stopRefused);
        var failures := Rollback(oldCfg, stopSet, rollback);
        LogGrowsOn(log, log1, calls, stopSet, touched);
        AbortOutcome(oldCfg, stopSet, touched, failed, start, Now(), failures);
        RunsTouched(Now(), oldCfg, newCfg);
        StillThere(start, stopSet, reload.stopRefused, rollback.stopRefused);
        SameBesideOn(start.live, live1, live, stopSet, touched);
        return StopAborted(failures);
      }
      StopSucceeded(oldCfg, newCfg, start, stopSet, startSet, reload.stopRefused);
      config := newCfg;
      var ok;
      ghost var part;
      ok, part := StartReload(startSet, reload);
      ghost var log2, mid := calls, Now();
      LogGrowsOn(log, log1, log2, startSet, touched);
      SameBesideOn(start.live, live1, live, startSet, touched);
      if !ok {
        StartFailed(oldCfg, newCfg, mid, startSet, part);
        EnteredThere(oldCfg, newCfg, mid, startSet, part, rollback.stopRefused);
        var failures := Rollback(oldCfg, touched, rollback);
        LogGrowsOn(log, log2, calls, touched, touched);
        SameBesideOn(start.live, mid.live, live, touched, touched);
        RollbackOutcome(oldCfg, newCfg, start, mid, Now(), startSet, part, rollback.stopRefused, failures);
        return RolledBack(failures);
      }
      return Reloaded;
    }
  }

  // ----- bookkeeping

  ghost predicate LogGrows(before: seq<Call>, after: seq<Call>, names: set<string>) {
    before <= after && OnlyCalls(after, |before|, names)
  }

  // ----- the order of calls

  /** `n` depends on `d`, and both are enabled. */
  ghost predicate Needs(c: Processes, n: string, d: string) {
    IsEnabled(c, n) && IsEnabled(c, d) && d in c[n].dependsOn
  }

  /** From `from` on, no process is stopped before one that depends on it. */
  ghost predicate StopsInOrder(c: Processes, calls: seq<Call>, from: nat) {
    forall a, b :: from <= a < b < |calls| && calls[a].Stop? && calls[b].Stop? ==>
                     !Needs(c, calls[b].name, calls[a].name)
  }

  /** From `from` on, no process is started before one it depends on. */
  ghost predicate StartsInOrder(c: Processes, calls: seq<Call>, from: nat) {
    forall a, b :: from <= a < b < |calls| && IsStart(calls[a]) && IsStart(calls[b]) ==>
                     !Needs(c, calls[a].name, calls[b].name)
  }

  predicate IsStart(call: Call) {
    call.Supervise? || call.Register?
  }

  /** The calls since `log` are about the first `i` names of the shutdown order, in order. */
  ghost predicate StopsFollow(c: Processes, order: seq<string>, i: nat, calls: seq<Call>, log: seq<Call>)
    requires i <= |order|
  {
    OnlyCalls(calls, |log|, Elems(order[..i])) && (StartOrderExists(c) ==> StopsInOrder(c, calls, |log|))
  }

  ghost predicate StartsFollow(c: Processes, order: seq<string>, i: nat, calls: seq<Call>, log: seq<Call>)
    requires i <= |order|
  {
    OnlyCalls(calls, |log|, Elems(order[..i])) && StartsInOrder(c, calls, |log|)
  }

  /** In a start order no process needs itself or a later one. */
  lemma NeedsEarlier(c: Processes, order: seq<string>, i: nat, j: nat)
    requires IsTopological(StartGraph(c), order) && i <= j < |order|
    ensures !Needs(c, order[i], order[j])
  {
    StartGraphEdge(c, order[i], order[j]);
    assert DepsBefore(StartGraph(c), order, i);
  }

  lemma StopsFollowOn(c: Processes, order: seq<string>, i: nat, log: seq<Call>, calls: seq<Call>, calls': seq<Call>)
    requires i < |order| && StopsFollow(c, order, i, calls, log) && log <= calls
    requires calls' == calls || LogGrows(calls, calls', {order[i]})
    requires StartOrderExists(c) ==> IsTopological(StartGraph(c), Reverse(order))
    ensures calls' == calls ==> StopsFollow(c, order, i + 1, calls, log)
    ensures StopsFollow(c, order, i + 1, calls', log)
  {
    hide StartOrderExists, IsTopological;
    ElemsTake(order, i);
    if StartOrderExists(c) {
      var rev := Reverse(order);
      forall a, b | |log| <= a < b < |calls'| && calls'[a].Stop? && calls'[b].Stop?
        ensures !Needs(c, calls'[b].name, calls'[a].name)
      {
        if b >= |calls| {
          assert calls'[a].name in Elems(order[..i + 1]) by {
            assert a < |calls| ==> calls'[a] == calls[a];
          }
          var j :| 0 <= j <= i && order[j] == calls'[a].name;
          assert rev[|order| - 1 - i] == order[i] && rev[|order| - 1 - j] == order[j];
          NeedsEarlier(c, rev, |order| - 1 - i, |order| - 1 - j);
        } else {
          assert calls'[a] == calls[a] && calls'[b] == calls[b];
        }
      }
    }
  }

  lemma StopsFollowed(c: Processes, order: seq<string>, calls: seq<Call>, log: seq<Call>)
    requires StopsFollow(c, order, |order|, calls, log)
    ensures StartOrderExists(c) ==> StopsInOrder(c, calls, |log|)
  {
  }

  /** A name the configuration has not enabled may be stopped at any time. */
  lemma StopsBesides(c: Processes, name: string, from: nat, calls: seq<Call>, calls': seq<Call>)
    requires StartOrderExists(c) ==> StopsInOrder(c, calls, from) && !IsEnabled(c, name)
    requires LogGrows(calls, calls', {name})
    ensures StartOrderExists(c) ==> StopsInOrder(c, calls', from)
  {
    hide StartOrderExists;
    if StartOrderExists(c) {
      forall a, b | from <= a < b < |calls'| && calls'[a].Stop? && calls'[b].Stop?
        ensures !Needs(c, calls'[b].name, calls'[a].name)
      {
        if b < |calls| {
          assert calls'[a] == calls[a] && calls'[b] == calls[b];
        }
      }
    }
  }

  lemma StartsFollowOn(c: Processes, order: seq<string>, i: nat, log: seq<Call>, calls: seq<Call>, calls': seq<Call>)
    requires i < |order| && StartsFollow(c, order, i, calls, log) && log <= calls
    requires LogGrows(calls, calls', {order[i]}) && IsTopological(StartGraph(c), order)
    ensures StartsFollow(c, order, i + 1, calls', log) && log <= calls'
  {
    hide IsTopological;
    ElemsTake(order, i);
    forall a, b | |log| <= a < b < |calls'| && IsStart(calls'[a]) && IsStart(calls'[b])
      ensures !Needs(c, calls'[a].name, calls'[b].name)
    {
      if b >= |calls| {
        assert calls'[a].name in Elems(order[..i + 1]) by {
          assert a < |calls| ==> calls'[a] == calls[a];
        }
        var j :| 0 <= j <= i && order[j] == calls'[a].name;
        NeedsEarlier(c, order, j, i);
      } else {
        assert calls'[a] == calls[a] && calls'[b] == calls[b];
      }
    }
  }

  lemma StartsFollowed(c: Processes, order: seq<string>, i: nat, calls: seq<Call>, log: seq<Call>)
    requires i <= |order| && StartsFollow(c, order, i, calls, log)
    ensures StartsInOrder(c, calls, |log|)
  {
  }

  /** Stopping leaves whatever else runs alone. */
  lemma StoppedLive(s: State, names: set<string>, refused: set<string>)
    ensures SameBeside(s.live, AfterStops(s, names, refused).live, names)
  {
  }

  /** Other than `names`, the same processes run. */
  ghost predicate SameBeside(a: Processes, b: Processes, names: set<string>) {
    a - names == b - names
  }

  lemma SameBesideOn(a: Processes, b: Processes, c: Processes, some: set<string>, names: set<string>)
    requires SameBeside(a, b, names) && SameBeside(b, c, some) && some <= names
    ensures SameBeside(a, c, names)
  {
    assert b - names == (b - some) - names && c - names == (c - some) - names;
  }

  lemma SameBesideSelf(a: Processes, names: set<string>)
    ensures SameBeside(a, a, names)
  {
  }

  /** The process is one that is started along with the manager and kept under a supervisor. */
  predicate Runs(c: Processes, n: string) {
    IsEnabled(c, n) && !c[n].scheduled && c[n].startsRunning
  }

  /** Those of `names` that ought to run do, each on its definition. */
  ghost predicate AllRun(s: State, c: Processes, names: set<string>) {
    forall n :: n in names && Runs(c, n) ==> n in s.live && s.live[n] == c[n]
  }

  /** What holds when startReloadProcesses comes to entry `i` of the order, with `part` brought up. */
  ghost predicate Starting(s: State, calls: seq<Call>, c: Processes, order: seq<string>, i: nat, names: set<string>,
                           part: set<string>, answers: Answers, was: Processes, log: seq<Call>)
    requires i <= |order|
  {
    && part == Turns(order, i, names) && Wanted(s, c, names - part)
    && CanStart(c, part, answers) && AllRun(s, c, part) && SameBeside(was, s.live, names)
    && part + EnteredFrom(c, order[i..], names, answers) == Entered(c, names, answers)
    && LogGrows(log, calls, names) && SupervisedBy(calls, |log|) == part * Supervised(c).Keys
  }

  /** What it leaves when it returns an error. */
  ghost predicate GaveUp(s: State, calls: seq<Call>, c: Processes, names: set<string>, part: set<string>,
                         answers: Answers, was: Processes, log: seq<Call>)
  {
    && part == Entered(c, names, answers) && part <= names && Wanted(s, c, names - part)
    && !CanStart(c, names, answers) && SameBeside(was, s.live, names)
    && LogGrows(log, calls, names) && SupervisedBy(calls, |log|) == part * Supervised(c).Keys
  }

  lemma StartingStarts(s: State, calls: seq<Call>, c: Processes, order: seq<string>, names: set<string>,
                       answers: Answers)
    requires Wanted(s, c, names) && StartOrderExists(c) && order == StartOrder(c)
    ensures Starting(s, calls, c, order, 0, names, {}, answers, s.live, calls)
  {
    var none: set<string> := {};
    assert names - none == names && order[0..] == order && Elems(order[..0]) * names == none;
    assert none * Supervised(c).Keys == {} == SupervisedBy(calls, |calls|);
  }

  lemma StartingSkips(s: State, calls: seq<Call>, c: Processes, order: seq<string>, i: nat, names: set<string>,
                      part: set<string>, answers: Answers, was: Processes, log: seq<Call>)
    requires IsTopological(StartGraph(c), order) && i < |order| && order[i] !in names
    requires Starting(s, calls, c, order, i, names, part, answers, was, log)
    ensures Starting(s, calls, c, order, i + 1, names, part, answers, was, log)
  {
    InOrder(c, order, i);
    TurnsNext(order, i, names);
    EnteredNext(c, order, i, names, answers);
    hide IsTopological, Wanted, CanStart, AllRun, SameBeside, LogGrows, SupervisedBy, Supervised, Entered, EnteredFrom,
         Turns;
  }

  lemma InOrder(c: Processes, order: seq<string>, i: nat)
    requires IsTopological(StartGraph(c), order) && i < |order|
    ensures IsEnabled(c, order[i])
  {
    OrderNames(c, order);
    assert order[i] in order;
  }

  lemma BeforeStart(s: State, calls: seq<Call>, c: Processes, order: seq<string>, i: nat, names: set<string>,
                    part: set<string>, answers: Answers, was: Processes, log: seq<Call>)
    requires IsTopological(StartGraph(c), order) && i < |order| && order[i] in names
    requires Starting(s, calls, c, order, i, names, part, answers, was, log)
    ensures IsEnabled(c, order[i]) && Sound(s) && order[i] !in s.processes && order[i] !in s.jobs
  {
    BeforeBringUp(c, order, i, names, s);
  }

  /** From one entry of the order to the next, or to the error. */
  lemma StartedOne(s: State, calls: seq<Call>, t: State, calls': seq<Call>, c: Processes, order: seq<string>, i: nat,
                   names: set<string>, part: set<string>, answers: Answers, was: Processes, log: seq<Call>,
                   ok: bool, entered: bool)
    requires IsTopological(StartGraph(c), order) && i < |order| && order[i] in names && IsEnabled(c, order[i])
    requires Starting(s, calls, c, order, i, names, part, answers, was, log) && Sound(t)
    requires t.processes ==
             if entered && !c[order[i]].scheduled then s.processes[order[i] := c[order[i]]] else s.processes
    requires t.jobs == if entered && c[order[i]].scheduled then s.jobs[order[i] := c[order[i]]] else s.jobs
    requires t.live == if ok && Runs(c, order[i]) then s.live[order[i] := c[order[i]]] else s.live
    requires ok <==> DepsAmong(c[order[i]], s.processes.Keys) && Granted(answers, order[i], c[order[i]])
    requires entered <==> DepsAmong(c[order[i]], s.processes.Keys) && Admitted(answers, order[i], c[order[i]])
    requires LogGrows(calls, calls', {order[i]})
    requires SupervisedBy(calls', |calls|) == if entered && !c[order[i]].scheduled then {order[i]} else {}
    ensures ok ==> Starting(t, calls', c, order, i + 1, names, part + {order[i]}, answers, was, log)
    ensures !ok ==> GaveUp(t, calls', c, names, if entered then part + {order[i]} else part, answers, was, log)
  {
    hide IsTopological, Wanted, CanStart, AllRun, SameBeside, LogGrows, SupervisedBy, Supervised, Entered, EnteredFrom,
         DepsAmong, Turns, Elems, Sound, Runs, StartGraph;
    var name := order[i];
    BeforeBringUp(c, order, i, names, s);
    TurnsNext(order, i, names);
    EnteredNext(c, order, i, names, answers);
    LogGrowsOn(log, calls, calls', {name}, names);
    AfterBringUp(c, s, t, names, part, name, entered);
    CanStartOne(c, names, part, answers, name);
    RunsOneMore(c, s, t, names, part, name, ok);
    SameBesideOn(was, s.live, t.live, names, names);
  }

  lemma HasGivenUp(s: State, calls: seq<Call>, c: Processes, names: set<string>, part: set<string>,
                   answers: Answers, was: Processes, log: seq<Call>)
    requires GaveUp(s, calls, c, names, part, answers, was, log)
    ensures part == Entered(c, names, answers) && part <= names && Wanted(s, c, names - part)
    ensures !CanStart(c, names, answers) && SameBeside(was, s.live, names)
    ensures LogGrows(log, calls, names) && SupervisedBy(calls, |log|) == part * Supervised(c).Keys
  {
  }

  lemma AllStarting(s: State, calls: seq<Call>, c: Processes, order: seq<string>, names: set<string>,
                    part: set<string>, answers: Answers, was: Processes, log: seq<Call>)
    requires IsTopological(StartGraph(c), order)
    requires Starting(s, calls, c, order, |order|, names, part, answers, was, log)
    ensures part == Entered(c, names, answers) && part <= names && Wanted(s, c, names - part)
    ensures CanStart(c, names, answers) && Wanted(s, c, {}) && AllRun(s, c, names) && SameBeside(was, s.live, names)
    ensures LogGrows(log, calls, names) && SupervisedBy(calls, |log|) == part * Supervised(c).Keys
  {
    hide Wanted, CanStart, AllRun, SameBeside, LogGrows, SupervisedBy, Supervised, Entered;
    assert EnteredFrom(c, order[|order|..], names, answers) == {};
    AllStarted(c, order, names, part, answers, s);
  }

  /** A rollback lets this process get its entry or job back, given which processes have a supervisor. */
  predicate BackIn(def: Process, name: string, entries: set<string>, answers: Answers) {
    if def.scheduled then name !in answers.startRefused
    else DepsAmong(def, entries) && (def.dependsOn == [] || name !in answers.notReady)
  }

  /** And it is counted as brought back. */
  predicate BackUp(def: Process, name: string, entries: set<string>, answers: Answers) {
    BackIn(def, name, entries, answers) && (def.startsRunning && !def.scheduled ==> name !in answers.startRefused)
  }

  /** A rollback can bring back every enabled process in `names`. */
  ghost predicate CanRestore(c: Processes, names: set<string>, answers: Answers) {
    forall n :: n in names && IsEnabled(c, n) ==> BackUp(c[n], n, Supervised(c).Keys, answers)
  }

  /** `here` has exactly the definition `def` under this name, if `there`, and nothing otherwise. */
  ghost predicate Has(here: Processes, name: string, def: Process, there: bool) {
    if there then name in here && here[name] == def else name !in here
  }

  /**
   * How a touched name stands after its turn in a rollback: one that would not stop keeps what it had;
   * one of the old configuration has its entry, its job and its process exactly if the answers and the
   * supervisors of its dependencies let it; any other has nothing.
   */
  ghost predicate SettledAt(s: State, base: State, c: Processes, unstoppable: set<string>, done: set<string>,
                            answers: Answers, n: string)
  {
    if n in unstoppable then
      && n in base.processes && Has(s.processes, n, base.processes[n], true) && n !in s.jobs
      && (n in base.live <==> n in s.live)
    else if n in done && n in c then
      && Has(s.processes, n, c[n], !c[n].scheduled && BackIn(c[n], n, s.processes.Keys, answers))
      && Has(s.jobs, n, c[n], c[n].scheduled && BackIn(c[n], n, s.processes.Keys, answers))
      && Has(s.live, n, c[n], Runs(c, n) && BackUp(c[n], n, s.processes.Keys, answers))
    else
      n !in s.processes && n !in s.jobs && n !in s.live
  }

  /** The names that had their turn and are not back up. */
  ghost function Missed(s: State, c: Processes, unstoppable: set<string>, done: set<string>,
                        answers: Answers): set<string>
  {
    set n | n in done && n !in unstoppable && n in c && !BackUp(c[n], n, s.processes.Keys, answers)
  }

  /** Every touched name stands as it should, and the failures are those that would not stop and those not back up. */
  ghost predicate Settled(s: State, base: State, c: Processes, touched: set<string>, unstoppable: set<string>,
                          done: set<string>, answers: Answers, failures: nat)
  {
    && (forall n {:trigger SettledAt(s, base, c, unstoppable, done, answers, n)} ::
          n in touched ==> SettledAt(s, base, c, unstoppable, done, answers, n))
    && failures == |unstoppable| + |Missed(s, c, unstoppable, done, answers)|
  }

  /** The same from supervisor entries `before`, whatever ran. */
  ghost predicate RolledBackFrom(before: Processes, s: State, c: Processes, touched: set<string>,
                                 unstoppable: set<string>, answers: Answers, failures: nat)
  {
    exists base: State :: base.processes == before
                     && Settled(s, base, c, touched, unstoppable, touched * Enabled(c), answers, failures)
  }

  /** What refuses both the stop of the reload and that of the rollback. */
  lemma StillThere(s: State, names: set<string>, refused: set<string>, again: set<string>)
    ensures names * again * AfterStops(s, names, refused).processes.Keys == names * refused * s.processes.Keys * again
  {
  }

  /** Of the touched names, exactly those entered have a supervisor when a start has failed. */
  lemma EnteredThere(c: Processes, d: Processes, mid: State, startSet: set<string>, part: set<string>,
                     refused: set<string>)
    requires startSet == ToStart(c, d) && part <= startSet && Wanted(mid, d, startSet - part)
    ensures Touched(c, d) * refused * mid.processes.Keys == part * Supervised(d).Keys * refused
  {
  }

  lemma AllStopped(s: State, touched: set<string>, refused: set<string>, c: Processes, answers: Answers)
    requires Sound(s)
    ensures var unstoppable := touched * refused * s.processes.Keys;
            Settled(AfterStops(s, touched, refused), s, c, touched, unstoppable, {}, answers, |unstoppable|)
  {
    var unstoppable, t := touched * refused * s.processes.Keys, AfterStops(s, touched, refused);
    assert Missed(t, c, unstoppable, {}, answers) == {};
    forall n | n in touched ensures SettledAt(t, s, c, unstoppable, {}, answers, n) {
    }
  }

  lemma SettledSkips(s: State, base: State, c: Processes, touched: set<string>, unstoppable: set<string>,
                     done: set<string>, answers: Answers, failures: nat, name: string)
    requires Settled(s, base, c, touched, unstoppable, done, answers, failures) && name in unstoppable
    ensures Settled(s, base, c, touched, unstoppable, done + {name}, answers, failures)
  {
    hide BackIn, BackUp;
    assert Missed(s, c, unstoppable, done + {name}, answers) == Missed(s, c, unstoppable, done, answers);
    forall n | n in touched ensures SettledAt(s, base, c, unstoppable, done + {name}, answers, n) {
      assert SettledAt(s, base, c, unstoppable, done, answers, n);
    }
  }

  /** None of `names` lists `name` as a dependency. */
  ghost predicate NotNeededBy(c: Processes, name: string, names: set<string>) {
    forall n :: n in names && n in c ==> name !in c[n].dependsOn
  }

  lemma NoneDependsOnLater(c: Processes, order: seq<string>, i: nat, touched: set<string>)
    requires IsTopological(StartGraph(c), order) && i < |order|
    ensures NotNeededBy(c, order[i], Turns(order, i, touched) + {order[i]})
  {
    OrderNames(c, order);
    forall n | n in Turns(order, i, touched) + {order[i]} && n in c ensures order[i] !in c[n].dependsOn {
      var j :| 0 <= j <= i && order[j] == n;
      assert order[i] in order && order[j] in order;
      StartGraphEdge(c, n, order[i]);
      assert DepsBefore(StartGraph(c), order, j);
    }
  }

  lemma SameEntries(c: Processes, n: string, name: string, entries: set<string>, answers: Answers)
    requires n in c && name !in c[n].dependsOn
    ensures BackIn(c[n], n, entries + {name}, answers) <==> BackIn(c[n], n, entries, answers)
    ensures BackUp(c[n], n, entries + {name}, answers) <==> BackUp(c[n], n, entries, answers)
  {
  }

  lemma SettledOne(c: Processes, s: State, t: State, base: State, touched: set<string>, unstoppable: set<string>,
                   done: set<string>, answers: Answers, failures: nat, name: string, ok: bool, entered: bool)
    requires Settled(s, base, c, touched, unstoppable, done, answers, failures) && NotNeededBy(c, name, done + {name})
    requires name in touched && name !in done && name !in unstoppable && IsEnabled(c, name)
    requires t.processes == if entered && !c[name].scheduled then s.processes[name := c[name]] else s.processes
    requires t.jobs == if entered && c[name].scheduled then s.jobs[name := c[name]] else s.jobs
    requires t.live == if ok && Runs(c, name) then s.live[name := c[name]] else s.live
    requires ok <==> BackUp(c[name], name, s.processes.Keys, answers)
    requires entered <==> BackIn(c[name], name, s.processes.Keys, answers)
    ensures Settled(t, base, c, touched, unstoppable, done + {name}, answers, if ok then failures else failures + 1)
  {
    hide BackIn, BackUp, Has;
    forall n | n in touched ensures SettledAt(t, base, c, unstoppable, done + {name}, answers, n) {
      assert SettledAt(s, base, c, unstoppable, done, answers, n);
      SettledAtOne(c, s, t, base, unstoppable, done, answers, name, ok, entered, n);
    }
    var was, now := Missed(s, c, unstoppable, done, answers), Missed(t, c, unstoppable, done + {name}, answers);
    forall n | n in c && n in done + {name} ensures n in now <==> n in was || (n == name && !ok) {
      KeysAfter(c, s, t, name, entered, n, answers);
    }
    assert now == if ok then was else was + {name};
  }

  lemma KeysAfter(c: Processes, s: State, t: State, name: string, entered: bool, n: string, answers: Answers)
    requires name in c && n in c && name !in c[n].dependsOn
    requires t.processes == if entered && !c[name].scheduled then s.processes[name := c[name]] else s.processes
    ensures BackIn(c[n], n, t.processes.Keys, answers) <==> BackIn(c[n], n, s.processes.Keys, answers)
    ensures BackUp(c[n], n, t.processes.Keys, answers) <==> BackUp(c[n], n, s.processes.Keys, answers)
  {
    SameEntries(c, n, name, s.processes.Keys, answers);
    assert t.processes.Keys == s.processes.Keys || t.processes.Keys == s.processes.Keys + {name};
  }

  lemma SettledAtOne(c: Processes, s: State, t: State, base: State, unstoppable: set<string>, done: set<string>,
                     answers: Answers, name: string, ok: bool, entered: bool, n: string)
    requires SettledAt(s, base, c, unstoppable, done, answers, n) && NotNeededBy(c, name, done + {name})
    requires name !in done && name !in unstoppable && IsEnabled(c, name)
    requires t.processes == if entered && !c[name].scheduled then s.processes[name := c[name]] else s.processes
    requires t.jobs == if entered && c[name].scheduled then s.jobs[name := c[name]] else s.jobs
    requires t.live == if ok && Runs(c, name) then s.live[name := c[name]] else s.live
    requires ok <==> BackUp(c[name], name, s.processes.Keys, answers)
    requires entered <==> BackIn(c[name], name, s.processes.Keys, answers)
    ensures SettledAt(t, base, c, unstoppable, done + {name}, answers, n)
  {
    hide BackIn, BackUp;
    if n in done + {name} && n in c {
      KeysAfter(c, s, t, name, entered, n, answers);
    }
  }

  /** When every turn has come, the count says whether all are back. */
  lemma AllSettled(c: Processes, order: seq<string>, touched: set<string>, unstoppable: set<string>, answers: Answers,
                   failures: nat, s: State, base: State)
    requires IsTopological(StartGraph(c), order)
    requires Settled(s, base, c, touched, unstoppable, Turns(order, |order|, touched), answers, failures)
    requires Beside(s, c, touched) && (failures == 0 ==> Wanted(s, c, {}))
    ensures Settled(s, base, c, touched, unstoppable, touched * Enabled(c), answers, failures)
    ensures failures == 0 <==> unstoppable == {} && CanRestore(c, touched, answers)
  {
    var done := Turns(order, |order|, touched);
    OrderNames(c, order);
    assert order[..|order|] == order;
    assert done == touched * Enabled(c) by {
      forall n ensures n in done <==> n in touched * Enabled(c) {
        assert n in order <==> IsEnabled(c, n);
      }
    }
    hide BackIn, BackUp, Turns;
    var missed := Missed(s, c, unstoppable, done, answers);
    if failures == 0 {
      assert s.processes == Supervised(c);
      forall n | n in touched && IsEnabled(c, n) ensures BackUp(c[n], n, Supervised(c).Keys, answers) {
        assert n !in missed;
      }
    }
    if unstoppable == {} && CanRestore(c, touched, answers) {
      EntriesBack(c, order, |order|, touched, answers, s, base);
      forall n | n in done && n in c ensures BackUp(c[n], n, s.processes.Keys, answers) {
        MoreEntries(c[n], n, Supervised(c).Keys, s.processes.Keys, answers);
      }
      assert missed == {};
    }
  }

  lemma MoreEntries(def: Process, n: string, some: set<string>, more: set<string>, answers: Answers)
    requires some <= more
    ensures BackIn(def, n, some, answers) ==> BackIn(def, n, more, answers)
    ensures BackUp(def, n, some, answers) ==> BackUp(def, n, more, answers)
  {
  }

  /** With nothing in the way, each process of the order finds its dependencies back. */
  lemma {:induction false} EntriesBack(c: Processes, order: seq<string>, k: nat, touched: set<string>,
                                       answers: Answers, s: State, base: State)
    requires IsTopological(StartGraph(c), order) && k <= |order| && Beside(s, c, touched)
    requires forall n :: n in touched ==> SettledAt(s, base, c, {}, touched * Enabled(c), answers, n)
    requires CanRestore(c, touched, answers)
    ensures forall i :: 0 <= i < k && order[i] in Supervised(c) ==> order[i] in s.processes
    ensures k == |order| ==> Supervised(c).Keys <= s.processes.Keys
    decreases k
  {
    OrderNames(c, order);
    if k > 0 {
      EntriesBack(c, order, k - 1, touched, answers, s, base);
      var n := order[k - 1];
      assert n in order && IsEnabled(c, n);
      if n in Supervised(c) {
        if n in touched {
          assert SettledAt(s, base, c, {}, touched * Enabled(c), answers, n);
          assert BackUp(c[n], n, Supervised(c).Keys, answers);
          forall d | d in c[n].dependsOn ensures d in s.processes.Keys {
            StartGraphEdge(c, n, d);
            assert DepsBefore(StartGraph(c), order, k - 1);
          }
        } else {
          assert n in Supervised(c) - touched;
        }
      }
    }
    if k == |order| {
      forall n | n in Supervised(c) ensures n in s.processes {
        assert n in order;
      }
    }
  }

  /** The touched names in `done` are back. */
  ghost predicate Restored(s: State, c: Processes, touched: set<string>, done: set<string>) {
    Wanted(s, c, touched - done) && AllRun(s, c, done)
  }

  /** What holds while a rollback brings the touched names back, those in `done` having had their turn. */
  ghost predicate Restoring(s: State, calls: seq<Call>, c: Processes, touched: set<string>, unstoppable: set<string>,
                            done: set<string>, failures: nat, was: Processes, log: seq<Call>)
  {
    && Sound(s) && Beside(s, c, touched) && Cleared(s, touched, unstoppable + done)
    && (failures == 0 ==> unstoppable == {} && Restored(s, c, touched, done))
    && LogGrows(log, calls, touched) && SameBeside(was, s.live, touched)
  }

  lemma RestoringStarts(s: State, calls: seq<Call>, c: Processes, touched: set<string>, unstoppable: set<string>)
    requires Sound(s) && Beside(s, c, touched) && Cleared(s, touched, unstoppable)
    requires unstoppable == {} ==> Wanted(s, c, touched)
    ensures Restoring(s, calls, c, touched, unstoppable, {}, |unstoppable|, s.live, calls)
  {
    var none: set<string> := {};
    assert touched - none == touched && unstoppable + none == unstoppable;
  }

  /** A name that would not stop is passed over; it has been counted already. */
  lemma RestoringSkips(s: State, calls: seq<Call>, c: Processes, touched: set<string>, unstoppable: set<string>,
                       done: set<string>, failures: nat, was: Processes, log: seq<Call>, name: string)
    requires Restoring(s, calls, c, touched, unstoppable, done, failures, was, log) && name in unstoppable
    ensures Restoring(s, calls, c, touched, unstoppable, done + {name}, failures, was, log)
  {
    hide Sound, Beside, LogGrows, SameBeside, Restored;
  }

  lemma AllRestored(c: Processes, order: seq<string>, touched: set<string>, unstoppable: set<string>,
                    failures: nat, s: State, calls: seq<Call>, was: Processes, log: seq<Call>)
    requires IsTopological(StartGraph(c), order)
    requires Restoring(s, calls, c, touched, unstoppable, Turns(order, |order|, touched), failures, was, log)
    ensures Sound(s) && Beside(s, c, touched) && SameBeside(was, s.live, touched) && LogGrows(log, calls, touched)
    ensures failures == 0 ==> Wanted(s, c, {}) && AllRun(s, c, touched)
  {
    hide Sound, Beside, LogGrows, SameBeside, Wanted, AllRun;
    AllStarted(c, order, touched, Turns(order, |order|, touched), Answers({}, {}, {}), s);
  }

  lemma RunsOneMore(c: Processes, s: State, t: State, names: set<string>, part: set<string>, name: string, ok: bool)
    requires IsEnabled(c, name) && name in names && name !in part
    requires t.live == if ok && Runs(c, name) then s.live[name := c[name]] else s.live
    ensures AllRun(s, c, part) && ok ==> AllRun(t, c, part + {name})
    ensures SameBeside(s.live, t.live, names)
  {
  }

  /** Of the touched names, only those the old configuration defines differently can run under it. */
  lemma RunsTouched(s: State, c: Processes, d: Processes)
    ensures AllRun(s, c, ToStart(d, c)) ==> AllRun(s, c, Touched(c, d))
  {
  }

  lemma LogGrowsOn(a: seq<Call>, b: seq<Call>, c: seq<Call>, some: set<string>, names: set<string>)
    requires LogGrows(a, b, names) && LogGrows(b, c, some) && some <= names
    ensures LogGrows(a, c, names)
    ensures SupervisedBy(c, |a|) == SupervisedBy(b, |a|) + SupervisedBy(c, |b|)
  {
    forall i | |a| <= i < |c| ensures c[i].name in names {
      assert i < |b| ==> c[i] == b[i];
    }
    assert forall i :: 0 <= i < |b| ==> c[i] == b[i];
    forall n | n in SupervisedBy(b, |a|) ensures n in SupervisedBy(c, |a|) {
      var i :| |a| <= i < |b| && b[i].Supervise? && b[i].name == n;
      assert c[i].Supervise? && c[i].name == n;
    }
    forall n | n in SupervisedBy(c, |a|) ensures n in SupervisedBy(b, |a|) + SupervisedBy(c, |b|) {
      var i :| |a| <= i < |c| && c[i].Supervise? && c[i].name == n;
      assert i < |b| ==> b[i].Supervise? && b[i].name == n;
    }
  }

  /** The names whose turn has come before entry `i` of the order. */
  ghost function Turns(order: seq<string>, i: nat, names: set<string>): set<string>
    requires i <= |order|
  {
    Elems(order[..i]) * names
  }

  lemma TurnsNext(order: seq<string>, i: nat, names: set<string>)
    requires i < |order|
    ensures Turns(order, i + 1, names) ==
            if order[i] in names then Turns(order, i, names) + {order[i]} else Turns(order, i, names)
    ensures Turns(order, i, names) <= names
  {
    ElemsTake(order, i);
  }

  lemma ElemsTake(s: seq<string>, i: nat)
    requires i < |s|
    ensures Elems(s[..i + 1]) == Elems(s[..i]) + {s[i]}
  {
    assert s[..i + 1] == s[..i] + [s[i]];
    ElemsSnoc(s[..i], s[i]);
  }

  lemma StopNone(s: State, refused: set<string>, names: set<string>, log: seq<Call>)
    ensures AfterStops(s, {}, refused) == s
    ensures LogGrows(log, log, names) && SupervisedBy(log, |log|) == {}
  {
    var none: set<string> := {};
    assert none - refused == {};
    assert s.processes - none == s.processes && s.jobs - none == s.jobs && s.live - none == s.live;
  }

  lemma StopOneMore(s: State, done: set<string>, refused: set<string>, name: string)
    ensures AfterStops(AfterStops(s, done, refused), {name}, refused) == AfterStops(s, done + {name}, refused)
    ensures name in AfterStops(s, done, refused).processes ==> name in s.processes
    ensures name in refused && name in s.processes ==> name in AfterStops(s, done, refused).processes
  {
    var t := AfterStops(AfterStops(s, done, refused), {name}, refused);
    var u := AfterStops(s, done + {name}, refused);
    assert t.processes == u.processes && t.jobs == u.jobs && t.live == u.live;
  }

  /** The shutdown order meets every name that has an entry or a job. */
  lemma StoppedAll(c: Processes, s: State, order: seq<string>, names: set<string>, done: set<string>,
                   refused: set<string>)
    requires Wanted(s, c, {}) && (forall n :: IsEnabled(c, n) ==> n in order) && done == Elems(order) * names
    ensures AfterStops(s, done, refused) == AfterStops(s, names, refused)
    ensures done * refused * s.processes.Keys == names * refused * s.processes.Keys
  {
    forall n | n in names && (n in s.processes || n in s.jobs || n in s.live) ensures n in done {
      assert IsEnabled(c, n);
    }
    var t, u := AfterStops(s, done, refused), AfterStops(s, names, refused);
    assert t.processes == u.processes && t.jobs == u.jobs && t.live == u.live;
  }

  predicate DepsAmong(def: Process, names: set<string>) {
    forall d :: d in def.dependsOn ==> d in names
  }

  /** The world lets this process come up: its dependencies get ready and its start is not refused. */
  predicate Granted(answers: Answers, name: string, def: Process) {
    && (def.dependsOn == [] || name !in answers.notReady)
    && (def.scheduled || def.startsRunning ==> name !in answers.startRefused)
  }

  /** The world lets this process get an entry: a supervisor gets one even if its start is then refused. */
  predicate Admitted(answers: Answers, name: string, def: Process) {
    && (def.dependsOn == [] || name !in answers.notReady)
    && (def.scheduled ==> name !in answers.startRefused)
  }

  /**
   * Every enabled process in `names` is let come up, and each of its dependencies has a supervisor:
   * a dependency that is disabled or scheduled makes the start fail.
   */
  ghost predicate CanStart(c: Processes, names: set<string>, answers: Answers) {
    forall n :: n in names && IsEnabled(c, n) ==> ComesUp(c, n, answers)
  }

  ghost predicate ComesUp(c: Processes, n: string, answers: Answers)
    requires n in c
  {
    DepsAmong(c[n], Supervised(c).Keys) && Granted(answers, n, c[n])
  }

  ghost predicate GetsEntry(c: Processes, n: string, answers: Answers)
    requires n in c
  {
    DepsAmong(c[n], Supervised(c).Keys) && Admitted(answers, n, c[n])
  }

  /** The names of `names` that get an entry or a job when started in this order, up to the first failure. */
  ghost function EnteredFrom(c: Processes, order: seq<string>, names: set<string>, answers: Answers): set<string>
    decreases |order|
  {
    if order == [] then {}
    else if order[0] !in names || order[0] !in c then EnteredFrom(c, order[1..], names, answers)
    else
      (if GetsEntry(c, order[0], answers) then {order[0]} else {}) +
      (if ComesUp(c, order[0], answers) then EnteredFrom(c, order[1..], names, answers) else {})
  }

  /** What starting `names` enters, decided by the configuration and by what the world answers. */
  ghost function Entered(c: Processes, names: set<string>, answers: Answers): set<string> {
    if StartOrderExists(c) then EnteredFrom(c, StartOrder(c), names, answers) else {}
  }

  /** The supervisor entries there are when a reload from `c` to `d` gives up starting. */
  ghost function HalfStarted(c: Processes, d: Processes, reload: Answers): Processes {
    Supervised(d) - (ToStart(c, d) - Entered(d, ToStart(c, d), reload))
  }

  lemma EnteredNext(c: Processes, order: seq<string>, i: nat, names: set<string>, answers: Answers)
    requires i < |order| && order[i] in c
    ensures order[i] !in names ==>
              EnteredFrom(c, order[i..], names, answers) == EnteredFrom(c, order[i + 1..], names, answers)
    ensures order[i] in names ==>
              EnteredFrom(c, order[i..], names, answers) ==
              (if GetsEntry(c, order[i], answers) then {order[i]} else {}) +
              (if ComesUp(c, order[i], answers) then EnteredFrom(c, order[i + 1..], names, answers) else {})
  {
    assert order[i..][1..] == order[i + 1..];
  }

  /** Nothing that fails before `order[k]` keeps it out. */
  lemma {:induction false} EnteredReaches(c: Processes, order: seq<string>, k: nat, names: set<string>,
                                          answers: Answers)
    requires k < |order| && (forall n :: n in order ==> n in c)
    requires order[k] in names && GetsEntry(c, order[k], answers)
    requires forall i :: 0 <= i < k && order[i] in names ==> ComesUp(c, order[i], answers)
    ensures order[k] in EnteredFrom(c, order, names, answers)
    decreases k
  {
    if k > 0 {
      EnteredReaches(c, order[1..], k - 1, names, answers);
    }
  }

  lemma StartNone(names: set<string>, log: seq<Call>)
    ensures names - {} == names && LogGrows(log, log, names) && SupervisedBy(log, |log|) == {}
  {
  }

  lemma OrderNames(c: Processes, order: seq<string>)
    requires IsTopological(StartGraph(c), order)
    ensures forall n :: n in order <==> IsEnabled(c, n)
    ensures Distinct(order)
  {
    StartGraphFacts(c);
    hide StartGraph;
    forall n ensures n in order <==> IsEnabled(c, n) {
      assert n in Elems(order) <==> n in StartGraph(c).Keys;
    }
  }

  /** Where a start stands when it reaches entry `i` of the order. */
  lemma BeforeBringUp(c: Processes, order: seq<string>, i: nat, names: set<string>, s: State)
    requires IsTopological(StartGraph(c), order) && i < |order| && order[i] in names
    requires Wanted(s, c, names - Turns(order, i, names))
    ensures IsEnabled(c, order[i]) && order[i] !in s.processes && order[i] !in s.jobs
    ensures order[i] !in Turns(order, i, names)
    ensures DepsAmong(c[order[i]], Supervised(c).Keys) <==> DepsAmong(c[order[i]], s.processes.Keys)
  {
    OrderNames(c, order);
    var name := order[i];
    assert name in order;
    if DepsAmong(c[name], Supervised(c).Keys) {
      forall d | d in c[name].dependsOn ensures d in s.processes {
        StartGraphEdge(c, name, d);
        assert DepsBefore(StartGraph(c), order, i);
      }
    }
  }

  lemma AfterBringUp(c: Processes, s: State, t: State, names: set<string>, part: set<string>, name: string,
                     entered: bool)
    requires Wanted(s, c, names - part) && IsEnabled(c, name) && name in names && name !in part && Sound(t)
    requires t.processes == if entered && !c[name].scheduled then s.processes[name := c[name]] else s.processes
    requires t.jobs == if entered && c[name].scheduled then s.jobs[name := c[name]] else s.jobs
    ensures Wanted(t, c, names - if entered then part + {name} else part)
    ensures (part + {name}) * Supervised(c).Keys ==
            part * Supervised(c).Keys + if c[name].scheduled then {} else {name}
  {
    if entered {
      var missing := names - (part + {name});
      assert t.processes == Supervised(c) - missing;
      assert t.jobs == Jobs(c) - missing;
    }
  }

  lemma CanStartOne(c: Processes, names: set<string>, part: set<string>, answers: Answers, name: string)
    requires CanStart(c, part, answers) && IsEnabled(c, name) && name in names
    ensures DepsAmong(c[name], Supervised(c).Keys) && Granted(answers, name, c[name]) ==>
              CanStart(c, part + {name}, answers)
    ensures !(DepsAmong(c[name], Supervised(c).Keys) && Granted(answers, name, c[name])) ==>
              !CanStart(c, names, answers)
  {
  }

  lemma AllStarted(c: Processes, order: seq<string>, names: set<string>, part: set<string>, answers: Answers, s: State)
    requires IsTopological(StartGraph(c), order) && part == Turns(order, |order|, names)
    ensures Wanted(s, c, names - part) ==> Wanted(s, c, {})
    ensures CanStart(c, part, answers) ==> CanStart(c, names, answers)
    ensures AllRun(s, c, part) ==> AllRun(s, c, names)
  {
    OrderNames(c, order);
    assert order[..|order|] == order;
    forall n | n in names && IsEnabled(c, n) ensures n in part {
      assert n in Elems(order);
    }
    assert Supervised(c) - (names - part) == Supervised(c) - {};
    assert Jobs(c) - (names - part) == Jobs(c) - {};
  }

  function Enabled(c: Processes): set<string> {
    set n | n in c && c[n].enabled
  }

  /** Everything other than `touched` is as configuration `c` asks. */
  ghost predicate Beside(s: State, c: Processes, touched: set<string>) {
    s.processes - touched == Supervised(c) - touched && s.jobs - touched == Jobs(c) - touched
  }

  /** Of the touched names only those in `some` may have an entry or a job. */
  ghost predicate Cleared(s: State, touched: set<string>, some: set<string>) {
    forall n :: n in touched && (n in s.processes || n in s.jobs) ==> n in some
  }

  lemma StoppedBeside(s: State, c: Processes, touched: set<string>, refused: set<string>, unstoppable: set<string>)
    requires Sound(s) && Beside(s, c, touched) && unstoppable == touched * refused * s.processes.Keys
    ensures Beside(AfterStops(s, touched, refused), c, touched)
    ensures Cleared(AfterStops(s, touched, refused), touched, unstoppable)
    ensures Sound(AfterStops(s, touched, refused))
    ensures unstoppable == {} ==> Wanted(AfterStops(s, touched, refused), c, touched)
  {
    var t := AfterStops(s, touched, refused);
    assert t.processes - touched == s.processes - touched && t.jobs - touched == s.jobs - touched;
    if unstoppable == {} {
      forall n | n in s.processes && n in touched ensures n !in refused {
        assert n in refused ==> n in unstoppable;
      }
      assert t.processes == s.processes - touched && t.jobs == s.jobs - touched;
    }
  }

  lemma BeforeRestore(c: Processes, order: seq<string>, i: nat, touched: set<string>, unstoppable: set<string>,
                      failures: nat, s: State, calls: seq<Call>, was: Processes, log: seq<Call>)
    requires IsTopological(StartGraph(c), order) && i < |order| && order[i] in touched && order[i] !in unstoppable
    requires Restoring(s, calls, c, touched, unstoppable, Turns(order, i, touched), failures, was, log)
    ensures IsEnabled(c, order[i]) && order[i] !in s.processes && order[i] !in s.jobs
    ensures order[i] !in Turns(order, i, touched) && Turns(order, i, touched) <= touched
  {
    OrderNames(c, order);
    assert order[i] in order;
  }

  lemma RestoredOne(c: Processes, s: State, t: State, touched: set<string>, unstoppable: set<string>,
                    done: set<string>, name: string, entered: bool)
    requires IsEnabled(c, name) && name in touched && name !in done && done <= touched && Sound(t)
    requires t.processes == if entered && !c[name].scheduled then s.processes[name := c[name]] else s.processes
    requires t.jobs == if entered && c[name].scheduled then s.jobs[name := c[name]] else s.jobs
    requires Beside(s, c, touched) && Cleared(s, touched, unstoppable + done)
    ensures Beside(t, c, touched) && Cleared(t, touched, unstoppable + (done + {name}))
    ensures entered && Wanted(s, c, touched - done) ==> Wanted(t, c, touched - (done + {name}))
  {
    assert t.processes - touched == s.processes - touched && t.jobs - touched == s.jobs - touched;
    if entered && Wanted(s, c, touched - done) {
      AfterBringUp(c, s, t, touched, done, name, entered);
    }
  }

  // ----- the cases of ReloadConfig

  /** The names of `d` that `c` lacks or defines differently. */
  function ToStart(c: Processes, d: Processes): set<string> {
    set n | n in d && !(n in c && c[n] == d[n])
  }

  lemma TouchedSplits(c: Processes, d: Processes)
    ensures Touched(c, d) == ToStart(c, d) + ToStart(d, c)
  {
  }

  lemma StopFailed(c: Processes, s: State, stopSet: set<string>, touched: set<string>, refused: set<string>)
    requires Wanted(s, c, {}) && stopSet <= touched
    ensures Beside(AfterStops(s, stopSet, refused), c, stopSet)
  {
    var t := AfterStops(s, stopSet, refused);
    assert t.processes - stopSet == s.processes - stopSet && t.jobs - stopSet == s.jobs - stopSet;
    assert s.processes == Supervised(c) && s.jobs == Jobs(c);
  }

  lemma AbortOutcome(c: Processes, stopSet: set<string>, touched: set<string>, failed: set<string>,
                     start: State, end: State, failures: nat)
    requires Wanted(start, c, {}) && stopSet <= touched && Beside(end, c, stopSet)
    requires failed != {} && failed <= stopSet && failed <= start.processes.Keys
    requires StartOrderExists(c) && failures == 0 ==> Wanted(end, c, {})
    requires !StartOrderExists(c) ==> failures == |stopSet * Enabled(c)|
    ensures Beside(end, c, touched)
    ensures failures == 0 ==> end.processes == start.processes && end.jobs == start.jobs
    ensures failures == 0 ==> StartOrderExists(c)
  {
    BesideMore(end, c, stopSet, touched);
    var n :| n in failed;
    assert n in stopSet * Enabled(c);
  }

  lemma BesideMore(s: State, c: Processes, some: set<string>, more: set<string>)
    requires Beside(s, c, some) && some <= more
    ensures Beside(s, c, more)
  {
    assert s.processes - more == (s.processes - some) - more;
    assert s.jobs - more == (s.jobs - some) - more;
    assert Supervised(c) - more == (Supervised(c) - some) - more;
    assert Jobs(c) - more == (Jobs(c) - some) - more;
  }

  lemma StopSucceeded(c: Processes, d: Processes, s: State, stopSet: set<string>, startSet: set<string>,
                      refused: set<string>)
    requires Wanted(s, c, {}) && stopSet == ToStart(d, c) && startSet == ToStart(c, d)
    requires stopSet * refused * s.processes.Keys == {} && Sound(AfterStops(s, stopSet, refused))
    ensures Wanted(AfterStops(s, stopSet, refused), d, startSet)
  {
    var t := AfterStops(s, stopSet, refused);
    forall n | n in s.processes && n in stopSet ensures n !in refused {
      assert n in refused ==> n in stopSet * refused * s.processes.Keys;
    }
    assert t.processes == Supervised(d) - startSet;
    assert t.jobs == Jobs(d) - startSet;
  }

  lemma StartFailed(c: Processes, d: Processes, s: State, startSet: set<string>, part: set<string>)
    requires startSet == ToStart(c, d) && part <= startSet && Wanted(s, d, startSet - part)
    ensures Beside(s, c, Touched(c, d))
  {
    var touched := Touched(c, d);
    assert Supervised(d) - touched == Supervised(c) - touched;
    assert Jobs(d) - touched == Jobs(c) - touched;
    assert s.processes - touched == Supervised(d) - touched;
    assert s.jobs - touched == Jobs(d) - touched;
  }

  lemma RollbackOutcome(c: Processes, d: Processes, start: State, mid: State, end: State, startSet: set<string>,
                        part: set<string>, refused: set<string>, failures: nat)
    requires Wanted(start, c, {}) && startSet == ToStart(c, d) && part <= startSet && Wanted(mid, d, startSet - part)
    requires StartOrderExists(c) && failures == 0 ==> Wanted(end, c, {})
    requires !StartOrderExists(c) ==> failures == |Touched(c, d) * Enabled(c)|
    requires !StartOrderExists(c) ==> end == AfterStops(mid, Touched(c, d), refused)
    ensures failures == 0 && StartOrderExists(c) ==> end.processes == start.processes && end.jobs == start.jobs
    ensures failures == 0 && !StartOrderExists(c) ==>
              (end.processes == start.processes && end.jobs == start.jobs <==>
               part * Supervised(d).Keys !! refused)
  {
    if failures == 0 && !StartOrderExists(c) {
      LeftBehind(c, d, start, mid, end, startSet, part, refused);
    }
  }

  /** Without a start order, what stays behind are the new supervisors that refuse to stop. */
  lemma LeftBehind(c: Processes, d: Processes, start: State, mid: State, end: State, startSet: set<string>,
                   part: set<string>, refused: set<string>)
    requires Wanted(start, c, {}) && startSet == ToStart(c, d) && part <= startSet && Wanted(mid, d, startSet - part)
    requires |Touched(c, d) * Enabled(c)| == 0 && end == AfterStops(mid, Touched(c, d), refused)
    ensures end.jobs == start.jobs
    ensures end.processes == start.processes <==> part * Supervised(d).Keys !! refused
  {
    var touched := Touched(c, d);
    StartFailed(c, d, mid, startSet, part);
    assert mid.processes.Keys * touched == part * Supervised(d).Keys;
    NoneEnabled(c, touched);
    hide Supervised, Jobs, Touched;
    Remnant(mid.processes, touched, refused);
  }

  lemma NoneEnabled(c: Processes, names: set<string>)
    requires |names * Enabled(c)| == 0
    ensures Supervised(c) - names == Supervised(c) - {} && Jobs(c) - names == Jobs(c) - {}
  {
    forall n | n in names ensures n !in Supervised(c) && n !in Jobs(c) {
      assert n !in names * Enabled(c);
    }
  }

  lemma Remnant(m: Processes, touched: set<string>, refused: set<string>)
    ensures m - (touched - refused) == m - touched <==> m.Keys * touched !! refused
  {
    if m.Keys * touched !! refused {
      assert m - (touched - refused) == m - touched;
    } else {
      var n :| n in m.Keys * touched && n in refused;
      assert n in m - (touched - refused) && n !in m - touched;
    }
  }

  /** A listed dependency without a supervisor keeps a process from coming up, whatever the world answers. */
  lemma UnsupervisedDependency(c: Processes, n: string, d: string, names: set<string>, answers: Answers)
    requires n in names && IsEnabled(c, n) && d in c[n].dependsOn && d in c && (!c[d].enabled || c[d].scheduled)
    ensures !CanStart(c, names, answers)
  {
    assert !ComesUp(c, n, answers);
  }

  /** So a reload fails to start "web", although there is a start order, if "db" is disabled or scheduled. */
  lemma DisabledOrScheduled(db: Process, answers: Answers)
    requires (!db.enabled || db.scheduled) && db.dependsOn == []
    ensures var c := map["web" := WEB, "db" := db];
            StartOrderExists(c) && !CanStart(c, {"web"}, answers)
  {
    var c := map["web" := WEB, "db" := db];
    UnsupervisedDependency(c, "web", "db", {"web"}, answers);
    PresentCondition(c);
    StartGraphFacts(c);
    hide StartGraph, CanStart;
    var order := ["db", "web"];
    forall i | 0 <= i < |order| ensures DepsBefore(StartGraph(c), order, i) {
      forall x | x in Deps(StartGraph(c), order[i]) ensures x in order[..i] {
        StartGraphEdge(c, order[i], x);
        assert x == "db" && i > 0 && order[..i][0] == "db";
      }
    }
    assert order[0] in Elems(order) && order[1] in Elems(order);
    DepsFirstIsAcyclic(StartGraph(c), order);
  }

  /** A manager in the state its configuration asks for shuts down everything it has. */
  lemma ShutdownStopsAll(s: State, c: Processes)
    requires Wanted(s, c, {})
    ensures Shutdown.ToStop(c, s.processes.Keys) == s.processes.Keys
  {
    assert s.processes == Supervised(c);
  }

  const APP := Process(true, false, true, ["db"], "app")
  const DB := Process(true, false, true, [], "db")
  const WEB := Process(true, false, true, ["db"], "web")

  /**
   * Why the old configuration needs a start order: "app" names a dependency it lacks, which the new one
   * adds along with "web". "db" comes up, "web" does not, and then "db" refuses to stop. The reload says
   * that it was rolled back without failures, and leaves a supervisor that has no configuration entry
   * and that a shutdown does not stop.
   */
  method UncountedLeftover() returns (m: Manager, r: Outcome)
    ensures r == RolledBack(0) && m.config == map["app" := APP]
    ensures m.processes == map["app" := APP, "db" := DB]
    ensures "db" !in Shutdown.ToStop(m.config, m.processes.Keys)
  {
    var oldCfg := map["app" := APP];
    var newCfg := map["app" := APP, "db" := DB, "web" := WEB];
    var reload, rollback := Answers({}, {}, {"web"}), Answers({"db"}, {}, {});
    m := new Manager(oldCfg, oldCfg, map[], oldCfg);
    var startup := GetStartupOrder(newCfg);
    DbOrderExists(newCfg);
    DbIsEntered(newCfg, startup.order, reload);
    NoOrderWithoutDb(oldCfg);
    OldAndNew(oldCfg, newCfg, reload);
    WebStays(newCfg, reload);
    hide Entered, StartOrderExists, CanStart, HalfStarted, Touched, ToStart, Supervised, Enabled, AllRun, SameBeside,
         LogGrows, Sound, Wanted, Beside;
    r := m.ReloadConfig(NewConfig(newCfg), reload, rollback);
  }

  lemma NoOrderWithoutDb(c: Processes)
    requires c == map["app" := APP]
    ensures !StartOrderExists(c)
  {
    PresentCondition(c);
    assert IsEnabled(c, "app") && "db" in c["app"].dependsOn && "db" !in c;
  }

  lemma OldAndNew(c: Processes, d: Processes, reload: Answers)
    requires c == map["app" := APP] && d == map["app" := APP, "db" := DB, "web" := WEB]
    requires "db" in Entered(d, {"db", "web"}, reload)
    ensures Wanted(State(c, map[], c), c, {})
    ensures ToStart(c, d) == {"db", "web"} == Touched(c, d) && ToStart(d, c) == {}
    ensures |Touched(c, d) * Enabled(c)| == 0
    ensures HalfStarted(c, d, reload) - (Touched(c, d) - {"db"}) == map["app" := APP, "db" := DB]
  {
    hide Entered;
    assert Supervised(c) == c && Jobs(c) == map[] && Supervised(d) == d;
    assert c - {} == c && Jobs(c) - {} == Jobs(c);
    assert ToStart(c, d) == {"db", "web"} && Touched(c, d) == {"db", "web"};
    assert {"db", "web"} - {"db"} == {"web"};
    assert Touched(c, d) * Enabled(c) == {};
  }

  lemma WebStays(d: Processes, reload: Answers)
    requires d == map["app" := APP, "db" := DB, "web" := WEB] && reload == Answers({}, {}, {"web"})
    ensures !CanStart(d, {"db", "web"}, reload)
  {
    assert IsEnabled(d, "web") && !Granted(reload, "web", WEB);
    assert !ComesUp(d, "web", reload);
  }

  /** "db" comes before "web" in every start order. */
  lemma DbIsEntered(d: Processes, order: seq<string>, reload: Answers)
    requires d == map["app" := APP, "db" := DB, "web" := WEB] && reload == Answers({}, {}, {"web"})
    requires StartOrderExists(d) && order == StartOrder(d) && IsTopological(StartGraph(d), order)
    ensures "db" in Entered(d, {"db", "web"}, reload)
  {
    hide StartOrderExists, StartGraph, EnteredFrom;
    var names := {"db", "web"};
    OrderNames(d, order);
    assert IsEnabled(d, "db");
    var k :| 0 <= k < |order| && order[k] == "db";
    forall i | 0 <= i < k ensures order[i] !in names {
      StartGraphEdge(d, order[i], "db");
      assert DepsBefore(StartGraph(d), order, i) && order[i] != order[k];
    }
    EnteredReaches(d, order, k, names, reload);
  }

  lemma DbOrderExists(d: Processes)
    requires d == map["app" := APP, "db" := DB, "web" := WEB]
    ensures StartOrderExists(d)
  {
    PresentCondition(d);
    StartGraphFacts(d);
    hide StartGraph;
    var order := ["db", "app", "web"];
    forall i | 0 <= i < |order| ensures DepsBefore(StartGraph(d), order, i) {
      forall x | x in Deps(StartGraph(d), order[i]) ensures x in order[..i] {
        StartGraphEdge(d, order[i], x);
        assert x == "db" && i > 0 && order[..i][0] == "db";
      }
    }
    assert StartGraph(d).Keys <= Elems(order) by {
      assert order[0] in Elems(order) && order[1] in Elems(order) && order[2] in Elems(order);
    }
    DepsFirstIsAcyclic(StartGraph(d), order);
  }
}
